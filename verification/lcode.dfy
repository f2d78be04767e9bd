/** The expression code generator (lcode.c): jump lists threaded through the code and patched in place. */
module LuaCode {
  import opened LuaObject
  import opened Vm
  import opened CodeSemantics

  const NO_JUMP: int := -1
  const MAXARG_sBx: int := 131071
  const MAXARG_Bx: int := 262143
  const LUAI_MAXSTACK: int := 250

  datatype CompileError = ControlStructureTooLong | ExpressionTooComplex | ConstantTableOverflow

  datatype Result<+T> = Success(value: T) | Failure(error: CompileError) {
    predicate IsFailure() { Failure? }
    function PropagateFailure<U>(): Result<U> requires Failure? { Failure(error) }
    function Extract(): T requires Success? { value }
  }

  // ---------------------------------------------------------------------------
  // Jump lists
  // ---------------------------------------------------------------------------

  /** The next element of the list a jump belongs to: a jump to itself marks the end. */
  function GetJump(code: seq<Instr>, p: int): int
    requires 0 <= p < |code| && code[p].Jmp?
  {
    if code[p].sbx == NO_JUMP then NO_JUMP else p + 1 + code[p].sbx
  }

  ghost predicate LinkAt(code: seq<Instr>, L: seq<int>, i: int) {
    0 <= i < |L| ==>
      && 0 <= L[i] < |code| && code[L[i]].Jmp?
      && if i + 1 < |L| then GetJump(code, L[i]) == L[i + 1] else code[L[i]].sbx == NO_JUMP
  }

  ghost predicate DistinctAt(L: seq<int>, i: int, j: int) {
    0 <= i < j < |L| ==> L[i] != L[j]
  }

  /** The jumps reached from `head` through the offsets stored in them are those of L, in this order. */
  ghost predicate ListOf(code: seq<Instr>, head: int, L: seq<int>) {
    && head == (if L == [] then NO_JUMP else L[0])
    && (forall i :: LinkAt(code, L, i))
    && (forall i, j :: DistinctAt(L, i, j))
  }

  ghost function Elems(L: seq<int>): set<int> {
    set p | p in L
  }

  lemma ElemsAppend(L1: seq<int>, L2: seq<int>)
    ensures Elems(L1 + L2) == Elems(L1) + Elems(L2)
  {
  }

  lemma ListTail(code: seq<Instr>, head: int, L: seq<int>)
    requires ListOf(code, head, L) && L != []
    ensures 0 <= head < |code| && code[head].Jmp? && ListOf(code, GetJump(code, head), L[1..])
    ensures head !in L[1..] && Elems(L) == {head} + Elems(L[1..])
  {
    assert LinkAt(code, L, 0);
    forall i ensures LinkAt(code, L[1..], i) {
      assert LinkAt(code, L, i + 1);
    }
    forall i, j ensures DistinctAt(L[1..], i, j) {
      assert DistinctAt(L, i + 1, j + 1);
    }
    forall i | 0 <= i < |L[1..]| ensures L[1..][i] != head {
      assert DistinctAt(L, 0, i + 1);
    }
    assert L == [head] + L[1..];
  }

  lemma ListEnd(code: seq<Instr>, head: int, L: seq<int>)
    requires ListOf(code, head, L)
    ensures L == [] <==> head == NO_JUMP
    ensures L != [] ==> 0 <= head < |code| && code[head].Jmp? && (|L| == 1 <==> GetJump(code, head) == NO_JUMP)
  {
    assert LinkAt(code, L, 0) && LinkAt(code, L, 1);
  }

  lemma ListJumps(code: seq<Instr>, head: int, L: seq<int>)
    requires ListOf(code, head, L)
    ensures forall p :: p in L ==> 0 <= p < |code| && code[p].Jmp?
  {
    forall p | p in L ensures 0 <= p < |code| && code[p].Jmp? {
      var i :| 0 <= i < |L| && L[i] == p;
      assert LinkAt(code, L, i);
    }
  }

  /** A list is untouched by changes elsewhere. */
  lemma ListFrame(code: seq<Instr>, code': seq<Instr>, head: int, L: seq<int>)
    requires ListOf(code, head, L)
    requires forall p :: p in L ==> 0 <= p < |code| && p < |code'| && code'[p] == code[p]
    ensures ListOf(code', head, L)
  {
    forall i ensures LinkAt(code', L, i) {
      assert LinkAt(code, L, i);
      assert 0 <= i < |L| ==> L[i] in L;
    }
  }

  /** Linking the last element of L1 to the head of L2. */
  lemma ListJoin(code: seq<Instr>, head1: int, L1: seq<int>, head2: int, L2: seq<int>)
    requires ListOf(code, head1, L1) && ListOf(code, head2, L2) && L1 != [] && L2 != []
    requires Elems(L1) !! Elems(L2)
    ensures var last := L1[|L1| - 1];
            0 <= last < |code| && ListOf(code[last := Jmp(head2 - (last + 1))], head1, L1 + L2)
  {
    var last := L1[|L1| - 1];
    assert LinkAt(code, L1, |L1| - 1);
    var code' := code[last := Jmp(head2 - (last + 1))];
    var L := L1 + L2;
    assert last in Elems(L1) && head2 in Elems(L2);
    forall i ensures LinkAt(code', L, i) {
      if 0 <= i < |L1| - 1 {
        assert LinkAt(code, L1, i) && DistinctAt(L1, i, |L1| - 1);
      } else if |L1| <= i < |L| {
        assert LinkAt(code, L2, i - |L1|);
        assert L[i] in Elems(L2);
      }
    }
    forall i, j ensures DistinctAt(L, i, j) {
      assert DistinctAt(L1, i, j) && DistinctAt(L2, i - |L1|, j - |L1|);
      if 0 <= i < |L1| <= j < |L| {
        assert L[i] in Elems(L1) && L[j] in Elems(L2);
      }
    }
  }

  /** A jump that keeps its link and its controlling test. */
  ghost predicate KeptJump(code: seq<Instr>, code': seq<Instr>, p: int) {
    && 0 <= p < |code| && p < |code'| && code'[p] == code[p]
    && (Controlled(code, p) <==> Controlled(code', p))
    && (Controlled(code, p) ==> code'[p - 1] == code[p - 1])
  }

  ghost predicate SameControl(code: seq<Instr>, code': seq<Instr>, p: int) {
    && (Controlled(code, p) <==> Controlled(code', p))
    && (Controlled(code, p) ==> code'[p - 1] == code[p - 1])
  }

  ghost predicate SameControls(code: seq<Instr>, code': seq<Instr>, L: seq<int>) {
    forall p :: p in L ==> SameControl(code, code', p)
  }

  lemma FrameControls(code: seq<Instr>, code': seq<Instr>, P: set<int>, L: seq<int>)
    requires Frame(code, code', P) && Elems(L) <= P
    ensures SameControls(code, code', L)
  {
    forall p | p in L ensures SameControl(code, code', p) {
      assert p in Elems(L) && KeptJump(code, code', p);
    }
  }

  ghost predicate Frame(code: seq<Instr>, code': seq<Instr>, P: set<int>) {
    forall p :: p in P ==> KeptJump(code, code', p)
  }

  // ---------------------------------------------------------------------------
  // Code generation state
  // ---------------------------------------------------------------------------

  ghost predicate LastOk(c: Code, lasttarget: int) {
    |c.code| > 0 && c.code[|c.code| - 1].LoadNil? ==>
      var last := c.code[|c.code| - 1];
      0 <= last.a <= last.b < LUAI_MAXSTACK && (lasttarget < |c.code| ==> EndsWithin(c, |c.code| - 1))
  }

  ghost predicate ConstantsOk(k: seq<Value>, h: map<Value, int>) {
    forall v :: v in h ==> 0 <= h[v] < |k| && k[h[v]] == v
  }

  // ---------------------------------------------------------------------------
  // Expression descriptors
  // ---------------------------------------------------------------------------

  datatype ExpKind =
    | VNil
    | VTrue
    | VFalse
    | VK(info: int)
    | VKNum(nval: Value)
    | VLocal(info: int)
    | VGlobal(info: int)
    | VJmp(info: int)
    | VReloc(info: int)
    | VNonReloc(info: int)

  /** expdesc: where the value is, and the lists of jumps taken when it is true or false. */
  datatype ExpDesc = ExpDesc(k: ExpKind, t: int, f: int)

  predicate HasJumps(e: ExpDesc) {
    e.t != e.f
  }

  /** The code before the last instructions of a descriptor that can still change: the comparison and
      jump of VJmp, the instruction without a register of VReloc. */
  ghost function Core(c: Code, e: ExpDesc): Code {
    match e.k
    case VReloc(pc) => if 0 <= pc <= |c.code| then Code(c.code[..pc], c.pend, {}) else c
    case VJmp(pc) => if 1 <= pc <= |c.code| then Code(c.code[..pc - 1], c.pend - {pc}, {}) else c
    case _ => c
  }

  /** The value a descriptor stands for when its core has run to the end; None is an error. */
  ghost function Rep(env: Env, code: seq<Instr>, e: ExpDesc, R: Regs): Option<Value> {
    match e.k
    case VNil => Some(Nil)
    case VTrue => Some(Boolean(true))
    case VFalse => Some(Boolean(false))
    case VK(i) => Some(env.k(i))
    case VKNum(n) => Some(n)
    case VLocal(r) => Some(Reg(R, r))
    case VNonReloc(r) => Some(Reg(R, r))
    case VGlobal(i) => env.global(env.k(i))
    case VReloc(pc) => if 0 <= pc < |code| then InstrValue(env, code[pc], R) else None
    case VJmp(pc) =>
      if 1 <= pc <= |code| && IsTest(code[pc - 1]) then
        match TestResult(env, code[pc - 1], R)
        case None => None
        case Some(b) => Some(Boolean(b))
      else None
  }

  /** The code generation state as a value. */
  datatype St = St(c: Code, lasttarget: int, nactvar: int, freereg: int, k: seq<Value>)

  ghost predicate EdOk(st: St, e: ExpDesc, T: seq<int>, F: seq<int>) {
    && ListOf(st.c.code, e.t, T) && ListOf(st.c.code, e.f, F)
    && Elems(T) !! Elems(F) && Elems(T) + Elems(F) <= st.c.pend
    && match e.k
       case VK(i) => 0 <= i < |st.k|
       case VGlobal(i) => 0 <= i < |st.k|
       case VKNum(n) => n.Integer? || n.Float?
       case VLocal(r) => 0 <= r < st.freereg
       case VNonReloc(r) => 0 <= r < st.freereg
       case VReloc(pc) =>
         && pc == |st.c.code| - 1 >= 0 && IsValueInstr(st.c.code[pc]) && !st.c.code[pc].Move?
         && st.c.here == {} && st.lasttarget <= pc && EndsWithin(st.c, pc) && LastOk(Core(st.c, e), st.lasttarget)
       case VJmp(pc) =>
         && pc == |st.c.code| - 1 >= 1 && st.c.code[pc - 1].Cmp? && 0 <= st.c.code[pc - 1].a <= 1
         && ListOf(st.c.code, pc, [pc])
         && st.c.here == {} && pc in st.c.pend && pc !in T && pc !in F && EndsWithin(st.c, pc - 1)
       case _ => true
  }

  // ---------------------------------------------------------------------------
  // Runs from an arbitrary earlier point
  // ---------------------------------------------------------------------------

  /** A point of observation: the environment, the place a run starts from and its registers. */
  datatype At = At(env: Env, s: int, R0: Regs)

  ghost function Out(x: At, c: Code): Outcome {
    Run(x.env, c, x.s, x.R0)
  }

  ghost predicate Consistent(env: Env, k: seq<Value>) {
    forall i :: 0 <= i < |k| ==> env.k(i) == k[i]
  }

  /** luaK_nil may widen the instruction before: a run must then start before it.  At the very start of a
      function the registers above the parameters are nil. */
  ghost predicate StartOk(st: St, s: int, R0: Regs) {
    && 0 <= s
    && (s == |st.c.code| > 0 && st.c.code[s - 1].LoadNil? ==> st.lasttarget == s)
    && (|st.c.code| == 0 && st.lasttarget < 0 ==> forall i :: 0 <= i < 256 && st.nactvar <= i ==> R0[i] == Nil)
  }

  ghost predicate PreAt(x: At, st: St, k: seq<Value>) {
    StartOk(st, x.s, x.R0) && Consistent(x.env, k)
  }

  /** What code generation never undoes. */
  ghost predicate Extends(st0: St, st1: St) {
    && st1.nactvar == st0.nactvar
    && |st0.k| <= |st1.k| && st1.k[..|st0.k|] == st0.k
    && |st0.c.code| <= |st1.c.code|
    && (|st1.c.code| == |st0.c.code| ==>
          && (st1.lasttarget == st0.lasttarget || st1.lasttarget == |st0.c.code|)
          && (|st0.c.code| > 0 ==>
                (st1.c.code[|st0.c.code| - 1].LoadNil? <==> st0.c.code[|st0.c.code| - 1].LoadNil?)))
  }

  lemma ExtendsTrans(a: St, b: St, c: St)
    requires Extends(a, b) && Extends(b, c)
    ensures Extends(a, c)
  {
    assert c.k[..|a.k|] == b.k[..|a.k|];
  }

  lemma PreMono(x: At, st0: St, st1: St, k: seq<Value>)
    requires Extends(st0, st1) && |st1.k| <= |k| && k[..|st1.k|] == st1.k && PreAt(x, st0, k)
    requires x.s <= |st0.c.code|
    ensures PreAt(x, st1, k) && Consistent(x.env, st1.k) && Consistent(x.env, st0.k)
  {
    assert forall i :: 0 <= i < |st1.k| ==> k[i] == st1.k[i];
    assert forall i :: 0 <= i < |st0.k| ==> st1.k[i] == st0.k[i];
  }

  ghost predicate SetTo(R: Regs, R': Regs, reg: int, v: Value) {
    Reg(R', reg) == v && forall i :: 0 <= i < 256 && i != reg ==> R'[i] == R[i]
  }

  // ---------------------------------------------------------------------------
  // What the operations on descriptors promise, seen from one point
  // ---------------------------------------------------------------------------

  /** The descriptor changed its form, not its value. */
  ghost predicate SameValueAt(x: At, st0: St, e0: ExpDesc, st1: St, e1: ExpDesc) {
    var o, o' := Out(x, Core(st0.c, e0)), Out(x, Core(st1.c, e1));
    o != Stuck ==>
      if o.Fall? then
        o'.Fall? && o'.R == o.R && Rep(x.env, st1.c.code, e1, o.R) == Rep(x.env, st0.c.code, e0, o.R)
      else
        o' == o
  }

  /** The value without the jumps is now in `reg`. */
  ghost predicate DeliverAt(x: At, st0: St, e: ExpDesc, st1: St, reg: int) {
    var o, o' := Out(x, Core(st0.c, e)), Out(x, st1.c);
    PreAt(x, st0, st1.k) && x.s <= |Core(st0.c, e).code| && o != Stuck ==>
      if o.Fall? then
        match Rep(x.env, st0.c.code, e, o.R)
        case None => o' == Error
        case Some(v) => o'.Fall? && SetTo(o.R, o'.R, reg, v)
      else
        o' == o
  }

  /** The value a jump out of the expression stands for. */
  ghost function JumpVal(code: seq<Instr>, p: int, R: Regs, b: bool): Value {
    if Controlled(code, p) then Reg(R, code[p - 1].b) else Boolean(b)
  }

  /** The value, jumps included, is now in `reg`, and no other register changed since. */
  ghost predicate StoreAt(x: At, st0: St, e: ExpDesc, T: seq<int>, F: seq<int>, st1: St, reg: int) {
    var o, o' := Out(x, Core(st0.c, e)), Out(x, st1.c);
    PreAt(x, st0, st1.k) && x.s <= |Core(st0.c, e).code| && o != Stuck ==>
      if o.Fall? then
        match Rep(x.env, st0.c.code, e, o.R)
        case None => o' == Error
        case Some(v) => o'.Fall? && SetTo(o.R, o'.R, reg, v)
      else if o.Exit? && (o.p in T || o.p in F) then
        o'.Fall? && SetTo(o.R, o'.R, reg, JumpVal(st0.c.code, o.p, o.R, o.p in T))
      else
        o' == o
  }

  /** The outcome of running luaK_nil's code. */
  ghost predicate NilSet(R: Regs, R': Regs, from: int, to: int) {
    forall i :: 0 <= i < 256 ==> R'[i] == if from <= i <= to then Nil else R[i]
  }

  ghost predicate Niled(st0: St, st1: St, from: int, to: int) {
    || Coded(st0.c, st1.c, [LoadNil(from, to)], {})
    || (&& st0.c.here == {} && |st0.c.code| > 0 && st0.c.code[|st0.c.code| - 1].LoadNil?
        && st0.lasttarget < |st0.c.code| && EndsWithin(st0.c, |st0.c.code| - 1)
        && var l := st0.c.code[|st0.c.code| - 1];
           && 0 <= l.a <= l.b < 256 && l.a <= from <= l.b + 1
           && st1.c == Code(st0.c.code[|st0.c.code| - 1 := LoadNil(l.a, if to > l.b then to else l.b)], st0.c.pend, st0.c.here))
    || (st1.c == st0.c && |st0.c.code| == 0 && st0.lasttarget < 0 && from >= st0.nactvar)
  }

  lemma NiledRun(x: At, st0: St, st1: St, from: int, to: int)
    requires Jumps(st0.c) && Niled(st0, st1, from, to) && 0 <= from <= to < 256
    requires PreAt(x, st0, st1.k) && Out(x, st0.c) != Stuck && x.s <= |st0.c.code|
    ensures var o, o' := Out(x, st0.c), Out(x, st1.c);
            if o.Fall? then o'.Fall? && NilSet(o.R, o'.R, from, to) else o' == o
  {
    var n := |st0.c.code|;
    if Coded(st0.c, st1.c, [LoadNil(from, to)], {}) {
      CodedRun(x.env, st0.c, st1.c, [LoadNil(from, to)], {}, x.s, x.R0);
      assert st1.c.code[n] == st1.c.code[n..][0];
      var o := Out(x, st0.c);
      if o.Fall? {
        forall i | 0 <= i < 256 ensures NilRange(o.R, from, to)[i] == if from <= i <= to then Nil else o.R[i] {
          NilRangeAt(o.R, from, to, i);
        }
        assert Run(x.env, st1.c, n, o.R) == Fall(NilRange(o.R, from, to));
      }
    } else if n > 0 {
      var l := st0.c.code[n - 1];
      var b' := if to > l.b then to else l.b;
      NilRun(x.env, st0.c, st1.c, b', x.s, x.R0);
      var o, o' := Out(x, st0.c), Out(x, st1.c);
      if o.Fall? {
        forall i | 0 <= i < 256 ensures o'.R[i] == if from <= i <= to then Nil else o.R[i] {
          assert Reg(o'.R, i) == if l.a <= i <= b' then Nil else Reg(o.R, i);
        }
      }
    }
  }

  class FuncState {
    var code: seq<Instr>     // f->code up to pc
    var lasttarget: int
    var jpc: int
    var freereg: int
    var nactvar: int
    var k: seq<Value>        // f->k up to nk
    var h: map<Value, int>   // where constants are in k (nil stands for the table itself)
    var maxstacksize: int
    ghost var pend: set<int>   // jumps in the lists of expressions and blocks
    ghost var jlist: seq<int>  // the list jpc

    /** open_func, and adjustlocalvars for the parameters. */
    constructor (nparams: nat)
      requires nparams < LUAI_MAXSTACK
      ensures Valid() && code == [] && pend == {} && jlist == [] && k == []
      ensures lasttarget < 0 && nactvar == freereg == nparams
    {
      code, lasttarget, jpc, freereg, nactvar := [], -1, NO_JUMP, nparams, nparams;
      k, h, maxstacksize := [], map[], if nparams < 2 then 2 else nparams;
      pend, jlist := {}, [];
    }

    ghost function C(): Code
      reads this
    {
      Code(code, pend, Elems(jlist))
    }

    ghost predicate Valid()
      reads this
    {
      && Jumps(C())
      && ListOf(code, jpc, jlist)
      && -1 <= lasttarget <= |code| && (jlist != [] ==> lasttarget == |code|)
      && EndsWithin(C(), |code|)
      && LastOk(C(), lasttarget)
      && ConstantsOk(k, h)
      && 0 <= nactvar <= freereg < LUAI_MAXSTACK && maxstacksize < LUAI_MAXSTACK
    }

    /** Code generation only gives up when a limit is reached: of the offset of a jump, of the registers of
        a function, or of the constants. */
    predicate AtLimit(e: CompileError)
      reads `code, `freereg, `k
    {
      match e
      case ControlStructureTooLong => |code| >= MAXARG_sBx
      case ExpressionTooComplex => freereg + 1 >= LUAI_MAXSTACK
      case ConstantTableOverflow => |k| >= MAXARG_Bx
    }

    // -------------------------------------------------------------------------
    // Lists
    // -------------------------------------------------------------------------

    method FixJump(pc: int, dest: int) returns (r: Result<()>)
      requires 0 <= pc < |code| && code[pc].Jmp? && NO_JUMP <= dest <= |code|
      modifies this`code
      ensures r.Success? ==> code == old(code)[pc := Jmp(dest - (pc + 1))]
      ensures r.Failure? ==> code == old(code)
      ensures r.Failure? ==> AtLimit(r.error)
    {
      var offset := dest - (pc + 1);
      if (if offset < 0 then -offset else offset) > MAXARG_sBx {
        return Failure(ControlStructureTooLong);
      }
      code := code[pc := Jmp(offset)];
      r := Success(());
    }

    /** luaK_concat: appends the list l2 to the list l1. */
    method LuaKConcat(l1: int, l2: int, ghost L1: seq<int>, ghost L2: seq<int>) returns (r: Result<int>)
      requires ListOf(code, l1, L1) && ListOf(code, l2, L2) && Elems(L1) !! Elems(L2)
      modifies this`code
      ensures r.Success? ==>
                && ListOf(code, r.value, L1 + L2) && |code| == |old(code)|
                && (forall p :: 0 <= p < |code| ==> code[p] == old(code)[p] || (p in L1 && code[p].Jmp?))
      ensures L1 == [] || L2 == [] ==> r.Success? && code == old(code)
      ensures r.Failure? ==> AtLimit(r.error)
    {
      if l2 == NO_JUMP {
        ListEnd(code, l2, L2);
        assert L1 + L2 == L1;
        return Success(l1);
      } else if l1 == NO_JUMP {
        ListEnd(code, l1, L1);
        assert L1 + L2 == L2;
        return Success(l2);
      }
      var list := l1;
      ghost var rest := L1;
      ListTail(code, list, rest);
      var next := GetJump(code, list);
      while next != NO_JUMP
        invariant code == old(code)
        invariant rest != [] && ListOf(code, list, rest) && 0 <= list < |code| && code[list].Jmp?
        invariant next == GetJump(code, list) && rest[|rest| - 1] == L1[|L1| - 1]
        decreases |rest|
      {
        ListTail(code, list, rest);
        rest := rest[1..];
        list := next;
        ListTail(code, list, rest);
        next := GetJump(code, list);
      }
      ListTail(code, list, rest);
      ListEnd(code, list, rest);
      ListJoin(code, l1, L1, l2, L2);
      ListTail(code, l2, L2);
      var _ :- FixJump(list, l2);
      r := Success(l1);
    }

    /** patchtestreg: gives the test that controls the jump `node` its register, or takes it away. */
    method PatchTestReg(node: int, reg: int) returns (b: bool)
      requires 0 <= node < |code| && code[node].Jmp?
      modifies this`code
      ensures b == Controlled(old(code), node)
      ensures code == if b then old(code)[node - 1 := Retarget(old(code)[node - 1], reg)] else old(code)
    {
      var i := if node >= 1 && IsTest(code[node - 1]) then node - 1 else node;
      if !code[i].TestSet? {
        return false;
      }
      if reg != NO_REG && reg != code[i].b {
        code := code[i := TestSet(reg, code[i].b, code[i].c)];
      } else {
        code := code[i := Test(code[i].b, code[i].c)];
      }
      b := true;
    }

    /** patchlistaux */
    method PatchListAux(l: int, vtarget: int, reg: int, dtarget: int, ghost L: seq<int>) returns (r: Result<()>)
      requires ListOf(code, l, L) && NO_JUMP <= vtarget <= |code| && NO_JUMP <= dtarget <= |code|
      modifies this`code
      ensures r.Success? ==> Patched(old(code), code, Elems(L), vtarget, reg, dtarget)
      ensures L == [] ==> r.Success?
      ensures r.Failure? ==> AtLimit(r.error)
    {
      var list := l;
      ghost var D, rest: seq<int> := {}, L;
      ghost var code0 := code;
      ListJumps(code, l, L);
      while list != NO_JUMP
        invariant ListOf(code, list, rest)
        invariant D + Elems(rest) == Elems(L) && D !! Elems(rest)
        invariant Patched(code0, code, D, vtarget, reg, dtarget)
        decreases |rest|
      {
        ListTail(code, list, rest);
        var next := GetJump(code, list);
        ghost var before := code;
        assert list in Elems(L);
        var v := PatchTestReg(list, reg);
        var _ :- FixJump(list, if v then vtarget else dtarget);
        PatchStep(code0, before, code, D, list, vtarget, reg, dtarget, Elems(L));
        PatchRest(before, code, list, next, rest[1..]);
        D, rest := D + {list}, rest[1..];
        list := next;
      }
      ListEnd(code, list, rest);
      assert D == Elems(L);
      r := Success(());
    }

    // -------------------------------------------------------------------------
    // Coding instructions
    // -------------------------------------------------------------------------

    /** Valid, except that the last instruction may still need the one after it. */
    ghost predicate Almost()
      reads this
    {
      && Jumps(C())
      && ListOf(code, jpc, jlist)
      && -1 <= lasttarget <= |code| && (jlist != [] ==> lasttarget == |code|)
      && |code| > 0 && EndsWithin(C(), |code| - 1)
      && LastOk(C(), lasttarget)
      && ConstantsOk(k, h)
      && 0 <= nactvar <= freereg < LUAI_MAXSTACK && maxstacksize < LUAI_MAXSTACK
    }

    /** Something can be coded: nothing is missing, or only the instruction skipped by a LOADBOOL. */
    ghost predicate Ready()
      reads this
    {
      Valid() || (Almost() && jlist == [] && EndsInSkip(code))
    }

    /** dischargejpc: the jumps waiting for the next instruction get their target. */
    method DischargeJpc() returns (r: Result<()>)
      requires Ready()
      modifies this`code, this`jpc, this`jlist
      ensures r.Success? ==> Ready() && jpc == NO_JUMP && jlist == [] && Discharged(old(C()), C())
      ensures r.Success? && old(Valid()) ==> Valid()
      ensures r.Success? && old(jlist) == [] ==> code == old(code)
      ensures r.Failure? ==> AtLimit(r.error)
    {
      ghost var c0, jlist0, Valid0 := C(), jlist, Valid();
      var _ :- PatchListAux(jpc, |code|, NO_REG, |code|, jlist);
      jpc := NO_JUMP;
      jlist := [];
      assert Elems([]) == {};
      if jlist0 == [] {
        NothingPatched(c0.code, code, |c0.code|, NO_REG, |c0.code|);
      }
      if Valid0 {
        DischargeKeeps(c0, C(), lasttarget);
      }
      r := Success(());
    }

    /** luaK_code */
    method LuaKCode(i: Instr) returns (r: Result<int>)
      requires Ready() && !i.Jmp?
      requires i.LoadNil? ==> 0 <= i.a <= i.b < LUAI_MAXSTACK && Valid()
      modifies this`code, this`jpc, this`jlist
      ensures r.Success? ==>
                && r.value == |old(code)| && jlist == [] && Coded(old(C()), C(), [i], {})
                && (old(Valid()) ==> Almost() && LastOk(Code(code[..r.value], pend, {}), lasttarget))
                && (!IsTest(i) && !(i.LoadBool? && i.c != 0) ==> Valid())
      ensures r.Failure? ==> AtLimit(r.error)
    {
      hide Coded, LastOk;
      ghost var c0 := C();
      var _ :- DischargeJpc();
      ghost var d := C();
      code := code + [i];
      CodeKeeps(c0, d, C(), i, lasttarget);
      assert code[..|d.code|] == d.code;
      r := Success(|code| - 1);
    }

    /** luaK_jump: a jump without a target; jumps to here are kept on hold in its list. */
    method LuaKJump() returns (r: Result<int>, ghost L: seq<int>)
      requires Valid() || (Almost() && jlist == [] && IsTest(code[|code| - 1]))
      modifies this`code, this`jpc, this`jlist, this`pend
      ensures r.Success? ==>
                && Valid() && jlist == [] && ListOf(code, r.value, L)
                && L == [|old(code)|] + old(jlist)
                && |code| == |old(code)| + 1 && code[..|old(code)|] == old(code) && code[|old(code)|].Jmp?
                && pend == old(pend) + Elems(L)
      ensures r.Failure? ==> AtLimit(r.error)
    {
      hide ListOf;
      ghost var c0, lt := C(), lasttarget;
      var savedjpc := jpc;
      ghost var held := jlist;
      var j := |code|;
      jpc := NO_JUMP;
      jlist := [];
      code := code + [Jmp(NO_JUMP)];
      pend := pend + Elems([j] + held);
      L := [j] + held;
      OpenJump(c0.code, code, savedjpc, held);
      ElemsAppend([j], held);
      var j' :- LuaKConcat(j, savedjpc, [j], held);
      assert forall p :: 0 <= p < |c0.code| ==> code[p] == c0.code[p];
      JumpKeeps(c0, C(), held, lasttarget);
      NothingListed(code);
      r := Success(j);
    }

    ghost function S(): St
      reads this
    {
      St(C(), lasttarget, nactvar, freereg, k)
    }

    /** What every code generation step keeps: pending jumps of other lists, in particular. */
    twostate predicate Kept()
      reads this
    {
      && Valid() && pend == old(pend) && Frame(old(code), code, pend)
      && Extends(old(S()), S()) && freereg == old(freereg) && nactvar == old(nactvar)
    }

    /** condjump: a test and its jump. */
    method CondJump(t: Instr) returns (r: Result<int>)
      requires Valid() && IsTest(t)
      modifies this`code, this`jpc, this`jlist, this`pend
      ensures r.Success? ==>
                && Valid() && jlist == [] && r.value == |old(code)| + 1
                && Coded(old(C()), C(), [t, Jmp(NO_JUMP)], {r.value})
                && ListOf(code, r.value, [r.value]) && Frame(old(code), code, old(pend))
                && EndsWithin(C(), |old(code)|)
      ensures r.Failure? ==> AtLimit(r.error)
    {
      ghost var c0 := C();
      var _ :- LuaKCode(t);
      ghost var c1 := C();
      var j, L := LuaKJump();
      if j.Failure? { return Failure(j.error); }
      r := Success(j.value);
      assert L == [j.value];
      assert LinkAt(code, L, 0);
      CondJumpCoded(c0, c1, C(), t);
      CodedFrame(c0, C(), [t, Jmp(NO_JUMP)], {j.value});
    }

    /** luaK_getlabel */
    method LuaKGetLabel() returns (pc: int)
      requires Valid()
      modifies this`lasttarget
      ensures Valid() && pc == lasttarget == |code|
    {
      lasttarget := |code|;
      pc := |code|;
    }

    /** luaK_nil */
    method LuaKNil(from: int, n: int) returns (r: Result<()>)
      requires Valid() && n >= 1 && 0 <= from && from + n <= freereg
      modifies this`code, this`jpc, this`jlist
      ensures r.Success? ==> Kept() && Niled(old(S()), S(), from, from + n - 1)
      ensures r.Failure? ==> AtLimit(r.error)
    {
      ghost var st0 := S();
      if |code| > lasttarget {
        ListEnd(code, jpc, jlist);
        if |code| == 0 {
          if from >= nactvar {
            FrameRefl(C());
            return Success(());
          }
        } else {
          var previous := code[|code| - 1];
          if previous.LoadNil? {
            if previous.a <= from && from <= previous.b + 1 {
              if from + n - 1 > previous.b {
                code := code[|code| - 1 := LoadNil(previous.a, from + n - 1)];
              }
              WidenKeeps(st0.c, C(), from + n - 1);
              return Success(());
            }
          }
        }
      }
      var _ :- LuaKCode(LoadNil(from, from + n - 1));
      CodedFrame(st0.c, C(), [LoadNil(from, from + n - 1)], {});
      r := Success(());
    }

    // -------------------------------------------------------------------------
    // Constants
    // -------------------------------------------------------------------------

    /** addk: reuses the constant if it is there already. */
    method AddK(v: Value) returns (r: Result<int>)
      requires Valid()
      modifies this`k, this`h
      ensures Valid() && |old(k)| <= |k| && k[..|old(k)|] == old(k)
      ensures r.Success? ==> 0 <= r.value < |k| && k[r.value] == v && r.value <= |old(k)|
      ensures r.Failure? ==> AtLimit(r.error)
    {
      if v in h {
        return Success(h[v]);
      }
      if |k| >= MAXARG_Bx {
        return Failure(ConstantTableOverflow);
      }
      k := k + [v];
      h := h[v := |k| - 1];
      r := Success(|k| - 1);
    }

    // -------------------------------------------------------------------------
    // Registers
    // -------------------------------------------------------------------------

    /** luaK_reserveregs, with luaK_checkstack. */
    method LuaKReserveRegs(n: int) returns (r: Result<()>)
      requires Valid() && n == 1
      modifies this`freereg, this`maxstacksize
      ensures r.Success? ==> Valid() && freereg == old(freereg) + n
      ensures r.Failure? ==> AtLimit(r.error)
    {
      var newstack := freereg + n;
      if newstack > maxstacksize {
        if newstack >= LUAI_MAXSTACK {
          return Failure(ExpressionTooComplex);
        }
        maxstacksize := newstack;
      }
      freereg := freereg + n;
      r := Success(());
    }

    /** freereg: temporaries are freed in stack order, which is the assertion of the source. */
    method FreeReg(reg: int)
      requires Valid() && 0 <= reg
      requires reg < BITRK && reg >= nactvar ==> reg == freereg - 1
      modifies this`freereg
      ensures Valid() && freereg == if reg < BITRK && reg >= nactvar then old(freereg) - 1 else old(freereg)
    {
      if reg < BITRK && reg >= nactvar {
        freereg := freereg - 1;
        assert reg == freereg;
      }
    }

    // -------------------------------------------------------------------------
    // Values into registers
    // -------------------------------------------------------------------------

    /** luaK_dischargevars */
    method LuaKDischargeVars(e: ExpDesc, ghost T: seq<int>, ghost F: seq<int>) returns (r: Result<ExpDesc>)
      requires Valid() && EdOk(S(), e, T, F)
      modifies this`code, this`jpc, this`jlist
      ensures r.Success? ==>
                && Kept() && EdOk(S(), r.value, T, F) && r.value.t == e.t && r.value.f == e.f
                && (match e.k
                    case VLocal(reg) => r.value.k == VNonReloc(reg)
                    case VGlobal(_) => r.value.k == VReloc(|old(code)|)
                    case _ => r.value == e)
                && (!e.k.VGlobal? ==> S() == old(S()))
                && SameValue(old(S()), e, S(), r.value)
      ensures !e.k.VGlobal? ==> r.Success?
      ensures r.Failure? ==> AtLimit(r.error)
    {
      match e.k {
        case VLocal(reg) =>
          FrameRefl(C());
          assert SameValue(S(), e, S(), e.(k := VNonReloc(reg)));
          r := Success(e.(k := VNonReloc(reg)));
        case VGlobal(info) =>
          r := CodeGlobal(e, info, T, F);
        case _ =>
          FrameRefl(C());
          r := Success(e);
      }
    }

    method CodeGlobal(e: ExpDesc, info: int, ghost T: seq<int>, ghost F: seq<int>) returns (r: Result<ExpDesc>)
      requires Valid() && EdOk(S(), e, T, F) && e.k == VGlobal(info)
      modifies this`code, this`jpc, this`jlist
      ensures r.Success? ==>
                && Kept() && EdOk(S(), r.value, T, F)
                && r.value == ExpDesc(VReloc(|old(code)|), e.t, e.f)
                && SameValue(old(S()), e, S(), r.value)
      ensures r.Failure? ==> AtLimit(r.error)
    {
      ghost var st0 := S();
      var pc :- LuaKCode(GetGlobal(0, info));
      CodedFrame(st0.c, C(), [GetGlobal(0, info)], {});
      ListsKept(st0, S(), e, T, F);
      GlobalSame(st0, S(), e, info);
      assert code[pc] == code[pc..][0];
      r := Success(e.(k := VReloc(pc)));
    }

    /** Codes one instruction that sets a register. */
    method CodeLoad(e: ExpDesc, i: Instr, reg: int, ghost T: seq<int>, ghost F: seq<int>) returns (r: Result<()>)
      requires Valid() && EdOk(S(), e, T, F) && 0 <= reg < freereg && Loads(S(), e, i, reg)
      modifies this`code, this`jpc, this`jlist
      ensures r.Success? ==> Kept() && Delivers(old(S()), e, S(), reg)
      ensures r.Failure? ==> AtLimit(r.error)
    {
      ghost var st0 := S();
      var _ :- LuaKCode(i);
      CodedFrame(st0.c, C(), [i], {});
      LoadDelivers(st0, e, S(), i, reg);
      r := Success(());
    }

    method CodeNil(e: ExpDesc, reg: int, ghost T: seq<int>, ghost F: seq<int>) returns (r: Result<()>)
      requires Valid() && EdOk(S(), e, T, F) && e.k == VNil && 0 <= reg < freereg
      modifies this`code, this`jpc, this`jlist
      ensures r.Success? ==> Kept() && Delivers(old(S()), e, S(), reg)
      ensures r.Failure? ==> AtLimit(r.error)
    {
      ghost var st0 := S();
      var _ :- LuaKNil(reg, 1);
      NilDelivers(st0, e, S(), reg);
      r := Success(());
    }

    method CodeNumber(e: ExpDesc, reg: int, ghost T: seq<int>, ghost F: seq<int>) returns (r: Result<()>)
      requires Valid() && EdOk(S(), e, T, F) && e.k.VKNum? && 0 <= reg < freereg
      modifies this`code, this`jpc, this`jlist, this`k, this`h
      ensures r.Success? ==> Kept() && Delivers(old(S()), e, S(), reg)
      ensures r.Failure? ==> AtLimit(r.error)
    {
      ghost var st0 := S();
      var info :- AddK(e.k.nval);
      ghost var st1 := S();
      FrameRefl(C());
      var _ :- CodeLoad(e, LoadK(reg, info), reg, T, F);
      ExtendsTrans(st0, st1, S());
      DeliversAfter(st0, st1, e, S(), reg);
      r := Success(());
    }

    /** SETARG_A of a relocatable instruction. */
    method SetRegister(e: ExpDesc, pc: int, reg: int, ghost T: seq<int>, ghost F: seq<int>)
      requires Valid() && EdOk(S(), e, T, F) && e.k == VReloc(pc) && 0 <= reg < 256
      modifies this`code
      ensures Kept() && Delivers(old(S()), e, S(), reg)
    {
      ghost var st0 := S();
      code := code[pc := WithA(code[pc], reg)];
      SetDelivers(st0, e, S(), pc, reg, T, F);
    }

    /** The part of discharge2reg after luaK_dischargevars. */
    method Materialize(e: ExpDesc, reg: int, ghost T: seq<int>, ghost F: seq<int>) returns (r: Result<()>)
      requires Valid() && EdOk(S(), e, T, F) && 0 <= reg < freereg
      requires !e.k.VJmp? && !e.k.VLocal? && !e.k.VGlobal?
      modifies this`code, this`jpc, this`jlist, this`k, this`h
      ensures r.Success? ==> Kept() && Delivers(old(S()), e, S(), reg)
      ensures r.Failure? ==> AtLimit(r.error)
    {
      match e.k {
        case VNil => r := CodeNil(e, reg, T, F);
        case VFalse => r := CodeLoad(e, LoadBool(reg, 0, 0), reg, T, F);
        case VTrue => r := CodeLoad(e, LoadBool(reg, 1, 0), reg, T, F);
        case VK(info) => r := CodeLoad(e, LoadK(reg, info), reg, T, F);
        case VKNum(_) => r := CodeNumber(e, reg, T, F);
        case VReloc(pc) =>
          SetRegister(e, pc, reg, T, F);
          r := Success(());
        case VNonReloc(info) =>
          if reg != info {
            r := CodeLoad(e, Move(reg, info), reg, T, F);
          } else {
            FrameRefl(C());
            assert Delivers(S(), e, S(), reg);
            r := Success(());
          }
      }
    }

    /** discharge2reg: the value without the jumps goes to `reg`; a pending comparison is left alone. */
    method Discharge2Reg(e0: ExpDesc, reg: int, ghost T: seq<int>, ghost F: seq<int>) returns (r: Result<ExpDesc>)
      requires Valid() && EdOk(S(), e0, T, F) && 0 <= reg < freereg
      modifies this`code, this`jpc, this`jlist, this`k, this`h
      ensures r.Success? ==>
                && Kept() && EdOk(S(), r.value, T, F) && r.value.t == e0.t && r.value.f == e0.f
                && if e0.k.VJmp? then r.value == e0 && S() == old(S())
                   else r.value.k == VNonReloc(reg) && Delivers(old(S()), e0, S(), reg)
      ensures r.Failure? ==> AtLimit(r.error)
    {
      hide Delivers, SameValue;
      ghost var st0 := S();
      var e :- LuaKDischargeVars(e0, T, F);
      if e.k.VJmp? {
        return Success(e);
      }
      ghost var st1 := S();
      var _ :- Materialize(e, reg, T, F);
      ListsKept(st1, S(), e, T, F);
      ExtendsTrans(st0, st1, S());
      FrameTrans(st0.c.code, st1.c.code, code, st0.c.pend, st1.c.pend, pend);
      DeliverTrans(st0, e0, st1, e, S(), reg);
      r := Success(e.(k := VNonReloc(reg)));
    }

    // -------------------------------------------------------------------------
    // Jumps into values
    // -------------------------------------------------------------------------

    /** luaK_patchtohere: the jumps of the list go to the next instruction. */
    method LuaKPatchToHere(list: int, ghost L: seq<int>) returns (r: Result<()>)
      requires Valid() && ListOf(code, list, L) && Elems(L) <= pend
      modifies this`code, this`jpc, this`jlist, this`pend, this`lasttarget
      ensures r.Success? ==>
                && Valid() && lasttarget == |code| && jlist == old(jlist) + L && pend == old(pend) - Elems(L)
                && Held(old(C()), C()) && Frame(old(code), code, pend) && Extends(old(S()), S())
                && (L == [] ==> code == old(code))
      ensures r.Failure? ==> AtLimit(r.error)
    {
      hide Held, Frame;
      ghost var st0 := S();
      var _ := LuaKGetLabel();
      ghost var c1, jlist1 := C(), jlist;
      HeadsApart(code, jlist, L, pend);
      var l :- LuaKConcat(jpc, list, jlist, L);
      jpc := l;
      jlist := jlist + L;
      pend := pend - Elems(L);
      ElemsAppend(jlist1, L);
      HereKeeps(st0.c, C(), jlist1, L, lasttarget);
      r := Success(());
    }

    /** need_value: does some jump of the list not produce a value? */
    method NeedValue(l: int, ghost L: seq<int>) returns (b: bool)
      requires ListOf(code, l, L)
      ensures b <==> exists p :: p in L && !Controlled(code, p)
    {
      var list := l;
      ghost var rest := L;
      while list != NO_JUMP
        invariant ListOf(code, list, rest)
        invariant forall p :: p in L ==> p in rest || Controlled(code, p)
        invariant forall p :: p in rest ==> p in L
        decreases |rest|
      {
        ListTail(code, list, rest);
        var i := if list >= 1 && IsTest(code[list - 1]) then code[list - 1] else code[list];
        if !i.TestSet? {
          assert list in L && !Controlled(code, list);
          return true;
        }
        assert rest == [list] + rest[1..];
        list := GetJump(code, list);
        rest := rest[1..];
      }
      ListEnd(code, list, rest);
      b := false;
    }

    /** code_label */
    method CodeLabel(a: int, b: int, jump: int) returns (r: Result<int>)
      requires Ready() && 0 <= a < LUAI_MAXSTACK
      modifies this`code, this`jpc, this`jlist, this`lasttarget
      ensures r.Success? ==>
                && r.value == |old(code)| && jlist == [] && Coded(old(C()), C(), [LoadBool(a, b, jump)], {})
                && (if jump == 0 then Valid() else old(Valid()) ==> Ready())
                && lasttarget == |old(code)|
      ensures r.Failure? ==> AtLimit(r.error)
    {
      lasttarget := |code|;
      assert Ready();
      r := LuaKCode(LoadBool(a, b, jump));
      if r.Success? {
        assert code[r.value] == code[r.value..][0];
      }
    }

    /** The two labels that load false and true, the first skipping the second. */
    method CodeLabels(reg: int) returns (r: Result<(int, int)>)
      requires Valid() && 0 <= reg < LUAI_MAXSTACK
      modifies this`code, this`jpc, this`jlist, this`lasttarget
      ensures r.Success? ==>
                && Valid() && jlist == [] && r.value == (|old(code)|, |old(code)| + 1)
                && Coded(old(C()), C(), [LoadBool(reg, 0, 1), LoadBool(reg, 1, 0)], {})
                && Frame(old(code), code, pend)
      ensures r.Failure? ==> AtLimit(r.error)
    {
      ghost var c0 := C();
      var pf :- CodeLabel(reg, 0, 1);
      ghost var c1 := C();
      var pt :- CodeLabel(reg, 1, 0);
      CodedTwice(c0, c1, C(), LoadBool(reg, 0, 1), LoadBool(reg, 1, 0));
      CodedFrame(c0, C(), [LoadBool(reg, 0, 1), LoadBool(reg, 1, 0)], {});
      r := Success((pf, pt));
    }

    /** A comparison as a value: its jump goes into the list of jumps that are true. */
    method JoinJump(e: ExpDesc, pc: int, ghost T: seq<int>, ghost F: seq<int>) returns (r: Result<int>)
      requires Valid() && EdOk(S(), e, T, F) && e.k == VJmp(pc)
      modifies this`code
      ensures r.Success? ==>
                && Valid() && ListOf(code, r.value, T + [pc]) && ListOf(code, e.f, F) && |code| == |old(code)|
                && Frame(old(code), code, pend - Elems(T) - {pc}) && Extends(old(S()), S())
                && JumpsOut(old(S()), e, S()) && SameControls(old(code), code, T + F) && !Controlled(code, pc)
      ensures r.Failure? ==> AtLimit(r.error)
    {
      ghost var st0 := S();
      assert Elems([pc]) == {pc};
      NoElems(jlist);
      var t :- LuaKConcat(e.t, pc, T, [pc]);
      ElemsAppend(T, [pc]);
      JoinKeeps(st0, e, S(), pc, T, F);
      r := Success(t);
    }

    /** The LOADBOOLs for jumps that arrive without a value, and the jump around them. */
    method AddLabels(reg: int, isJmp: bool) returns (r: Result<(int, int)>)
      requires Valid() && 0 <= reg < LUAI_MAXSTACK
      modifies this`code, this`jpc, this`jlist, this`pend, this`lasttarget
      ensures r.Success? ==>
                && Valid() && pend == old(pend) && Frame(old(code), code, pend) && Extends(old(S()), S())
                && |old(code)| <= r.value.0 && LabelsAt(code, r.value.0, r.value.1, reg)
                && Labelled(old(S()), S(), reg, isJmp)
      ensures r.Failure? ==> AtLimit(r.error)
    {
      hide Labelled, Frame, Held;
      ghost var st0 := S();
      var fj := NO_JUMP;
      ghost var J: seq<int> := [];
      if !isJmp {
        ghost var J';
        var j;
        j, J' := LuaKJump();
        if j.Failure? { return Failure(j.error); }
        fj := j.value;
        J := J';
      }
      ghost var st1 := S();
      r := CodeLabels(reg);
      if r.Failure? { return; }
      ghost var st2 := S();
      JumpListKept(st0, st1, st2, fj, J, isJmp);
      var e := LuaKPatchToHere(fj, J);
      if e.Failure? { return Failure(e.error); }
      LabelsRun(st0, st1, st2, S(), reg, J, isJmp);
      LabelsFrame(st0, st1, st2, S(), J, isJmp, reg);
    }

    /** One list of exp2reg: its jumps with a value store it and go to the end, the others to a label. */
    method PatchValueList(l: int, reg: int, dtarget: int, ghost L: seq<int>) returns (r: Result<()>)
      requires Valid() && lasttarget == |code| && ListOf(code, l, L) && Elems(L) <= pend
      requires forall p :: p in L ==> Controlled(code, p) || dtarget <= |code|
      requires NO_JUMP <= dtarget <= |code|
      modifies this`code, this`pend
      ensures r.Success? ==>
                && Valid() && pend == old(pend) - Elems(L) && Frame(old(code), code, pend)
                && Patched(old(code), code, Elems(L), |code|, reg, dtarget) && Extends(old(S()), S())
      ensures r.Failure? ==> AtLimit(r.error)
    {
      ghost var c0 := C();
      var _ :- PatchListAux(l, |code|, reg, dtarget, L);
      pend := pend - Elems(L);
      HeadsApart(c0.code, jlist, L, c0.pend);
      PatchLists(c0.code, code, |code|, reg, dtarget, jpc, jlist, L);
      PatchedKeeps(c0, C(), L, |code|, reg, dtarget);
      r := Success(());
    }

    /** The end of exp2reg: jumps with a value go to the end and store it, the others go to the labels. */
    method PatchValues(t: int, f: int, reg: int, pf: int, pt: int, ghost T: seq<int>, ghost F: seq<int>) returns (r: Result<()>)
      requires Valid() && ListOf(code, t, T) && ListOf(code, f, F) && Elems(T) + Elems(F) <= pend && Elems(T) !! Elems(F)
      requires 0 <= reg < LUAI_MAXSTACK && Labelable(code, T, F, pf, pt, reg)
      requires NO_JUMP <= pf <= |code| && NO_JUMP <= pt <= |code|
      modifies this`code, this`pend, this`lasttarget
      ensures r.Success? ==>
                && Valid() && pend == old(pend) - Elems(T) - Elems(F) && lasttarget == |code| == |old(code)|
                && Frame(old(code), code, pend) && Extends(old(S()), S())
                && Finals(old(S()), S(), T, F, reg)
      ensures r.Failure? ==> AtLimit(r.error)
    {
      hide Patched, Finals;
      ghost var st0 := S();
      var final := LuaKGetLabel();
      var _ :- PatchValueList(f, reg, pf, F);
      ghost var mid, st1 := C(), S();
      PatchLists(st0.c.code, code, final, reg, pf, t, T, F);
      LabelsStay(st0.c, mid, T, F, final, pf, pt, reg);
      var _ :- PatchValueList(t, reg, pt, T);
      FrameTrans(st0.c.code, mid.code, code, mid.pend, pend, pend);
      FinalsRun(st0, mid, S(), T, F, reg, pf, pt);
      ExtendsTrans(st0, st1, S());
      r := Success(());
    }

    /** exp2reg: the value of the expression, jumps included, goes to `reg`. */
    method Exp2Reg(e0: ExpDesc, reg: int, ghost T: seq<int>, ghost F: seq<int>) returns (r: Result<ExpDesc>)
      requires Valid() && EdOk(S(), e0, T, F) && 0 <= reg < freereg
      modifies this`code, this`jpc, this`jlist, this`k, this`h, this`pend, this`lasttarget
      ensures r.Success? ==>
                && r.value == ExpDesc(VNonReloc(reg), NO_JUMP, NO_JUMP)
                && Valid() && freereg == old(freereg) && Extends(old(S()), S())
                && pend == old(pend) - Elems(T) - Elems(F) - (if e0.k.VJmp? then {e0.k.info} else {})
                && Frame(old(code), code, pend)
                && Stores(old(S()), e0, T, F, S(), reg)
      ensures r.Failure? ==> AtLimit(r.error)
    {
      hide Stores, Delivers, SameControls, Frame, Extends, Finished, JumpsOut;
      ghost var st0 := S();
      var e :- Discharge2Reg(e0, reg, T, F);
      if e.k.VJmp? {
        var _ :- JumpToReg(e, e.k.info, reg, T, F);
      } else {
        ghost var st1 := S();
        var _ :- FinishJumps(e.t, e.f, reg, false, T, F);
        Landed(st0, e0, st1, T, F, S(), reg);
      }
      r := Success(ExpDesc(VNonReloc(reg), NO_JUMP, NO_JUMP));
    }

    /** exp2reg for a comparison: its own jump is one more for a true value. */
    method JumpToReg(e: ExpDesc, pc: int, reg: int, ghost T: seq<int>, ghost F: seq<int>) returns (r: Result<()>)
      requires Valid() && EdOk(S(), e, T, F) && e.k == VJmp(pc) && 0 <= reg < freereg
      modifies this`code, this`jpc, this`jlist, this`pend, this`lasttarget
      ensures r.Success? ==>
                && Valid() && Extends(old(S()), S()) && pend == old(pend) - Elems(T) - Elems(F) - {pc}
                && Frame(old(code), code, pend) && Stores(old(S()), e, T, F, S(), reg)
      ensures r.Failure? ==> AtLimit(r.error)
    {
      hide Stores, Frame, Extends, JumpsOut, Finished, SameControls;
      ghost var st0 := S();
      var t :- JoinJump(e, pc, T, F);
      ghost var T1 := T + [pc];
      ElemsAppend(T, [pc]);
      assert Elems([pc]) == {pc};
      assert T1[|T|] == pc && pc in T1;
      ghost var st1 := S();
      r := FinishJumps(t, e.f, reg, true, T1, F);
      if r.Failure? { return; }
      StoresComparison(st0, e, T, F, st1, S(), reg);
      ExtendsTrans(st0, st1, S());
      FrameTrans(st0.c.code, st1.c.code, code, st0.c.pend - Elems(T) - {pc}, pend, pend);
    }

    /** exp2reg when the lists are complete. */
    method FinishJumps(t: int, f: int, reg: int, isJmp: bool, ghost T: seq<int>, ghost F: seq<int>) returns (r: Result<()>)
      requires Valid() && ListOf(code, t, T) && ListOf(code, f, F) && Elems(T) + Elems(F) <= pend && Elems(T) !! Elems(F)
      requires 0 <= reg < freereg
      requires isJmp ==> exists p :: p in T && !Controlled(code, p)
      modifies this`code, this`jpc, this`jlist, this`pend, this`lasttarget
      ensures r.Success? ==>
                && Valid() && pend == old(pend) - Elems(T) - Elems(F) && Frame(old(code), code, pend)
                && Extends(old(S()), S()) && Finished(old(S()), S(), T, F, reg, isJmp)
      ensures r.Failure? ==> AtLimit(r.error)
    {
      hide Finished, Labelled, Finals;
      ghost var st0 := S();
      if t == f {
        NoLists(code, t, T, F);
        FrameRefl(C());
        FinishedNothing(S(), reg);
        return Success(());
      }
      var pf, pt := NO_JUMP, NO_JUMP;
      var need := NeedValue(t, T);
      if !need { need := NeedValue(f, F); }
      if need {
        var l :- AddLabels(reg, isJmp);
        pf, pt := l.0, l.1;
        ListsKept(st0, S(), ExpDesc(VNil, t, f), T, F);
        EarlierJumps(st0.c, T, F, pf);
      } else {
        FrameRefl(C());
        LabelledNothing(S(), reg);
      }
      ghost var st1 := S();
      FrameControls(st0.c.code, st1.c.code, st0.c.pend, T + F);
      ElemsAppend(T, F);
      var _ :- PatchValues(t, f, reg, pf, pt, T, F);
      FinishedFrom(st0, st1, S(), T, F, reg, isJmp);
      ExtendsTrans(st0, st1, S());
      FrameTrans(st0.c.code, st1.c.code, code, st0.c.pend, pend, pend);
      r := Success(());
    }

    // -------------------------------------------------------------------------
    // Values into some register or operand
    // -------------------------------------------------------------------------

    /** freeexp */
    method FreeExp(e: ExpDesc)
      requires Valid() && (e.k.VNonReloc? ==> 0 <= e.k.info < BITRK && (e.k.info >= nactvar ==> e.k.info == freereg - 1))
      modifies this`freereg
      ensures Valid()
      ensures freereg == if e.k.VNonReloc? && e.k.info >= nactvar then old(freereg) - 1 else old(freereg)
    {
      if e.k.VNonReloc? {
        FreeReg(e.k.info);
      }
    }

    /** luaK_exp2nextreg */
    method LuaKExp2NextReg(e0: ExpDesc, ghost T: seq<int>, ghost F: seq<int>) returns (r: Result<ExpDesc>)
      requires Valid() && EdOk(S(), e0, T, F) && LocalReg(e0, nactvar)
      modifies this`code, this`jpc, this`jlist, this`k, this`h, this`pend, this`lasttarget, this`freereg, this`maxstacksize
      ensures r.Success? ==>
                && r.value == ExpDesc(VNonReloc(old(freereg)), NO_JUMP, NO_JUMP)
                && Valid() && freereg == old(freereg) + 1 && Extends(old(S()), S())
                && pend == old(pend) - Elems(T) - Elems(F) - (if e0.k.VJmp? then {e0.k.info} else {})
                && Frame(old(code), code, pend)
                && Stores(old(S()), e0, T, F, S(), old(freereg))
      ensures r.Failure? ==> AtLimit(r.error)
    {
      hide Stores, SameValue, Frame, Extends;
      ghost var st0 := S();
      var e :- LuaKDischargeVars(e0, T, F);
      ghost var st1 := S();
      r := NextReg(e, T, F);
      if r.Failure? { return; }
      AfterVars(st0, e0, st1, e, T, F, S(), freereg - 1);
    }

    /** luaK_exp2nextreg after luaK_dischargevars. */
    method NextReg(e: ExpDesc, ghost T: seq<int>, ghost F: seq<int>) returns (r: Result<ExpDesc>)
      requires Valid() && EdOk(S(), e, T, F) && LocalReg(e, nactvar)
      modifies this`code, this`jpc, this`jlist, this`k, this`h, this`pend, this`lasttarget, this`freereg, this`maxstacksize
      ensures r.Success? ==>
                && r.value == ExpDesc(VNonReloc(old(freereg)), NO_JUMP, NO_JUMP)
                && Valid() && freereg == old(freereg) + 1 && Extends(old(S()), S())
                && pend == old(pend) - Elems(T) - Elems(F) - (if e.k.VJmp? then {e.k.info} else {})
                && Frame(old(code), code, pend)
                && Stores(old(S()), e, T, F, S(), old(freereg))
      ensures r.Failure? ==> AtLimit(r.error)
    {
      hide Frame, Stores, ListOf;
      ghost var st0 := S();
      FreeExp(e);
      var _ :- LuaKReserveRegs(1);
      ghost var st1 := S();
      r := Exp2Reg(e, freereg - 1, T, F);
      if r.Failure? { return; }
      StoresFree(st0, st1, e, T, F, S(), st0.freereg);
    }

    /** luaK_exp2anyreg */
    method LuaKExp2AnyReg(e0: ExpDesc, ghost T: seq<int>, ghost F: seq<int>) returns (r: Result<ExpDesc>)
      requires Valid() && EdOk(S(), e0, T, F) && VariableOk(e0, nactvar)
      modifies this`code, this`jpc, this`jlist, this`k, this`h, this`pend, this`lasttarget, this`freereg, this`maxstacksize
      ensures r.Success? ==>
                && r.value.k.VNonReloc? && r.value.t == NO_JUMP && r.value.f == NO_JUMP
                && AnyReg(e0, r.value.k.info, old(freereg), freereg, nactvar)
                && Valid() && Extends(old(S()), S())
                && pend == old(pend) - Elems(T) - Elems(F) - (if e0.k.VJmp? then {e0.k.info} else {})
                && Frame(old(code), code, pend)
                && Stores(old(S()), e0, T, F, S(), r.value.k.info)
      ensures e0.k.VNonReloc? && !HasJumps(e0) ==> r.Success? && r.value == e0 && S() == old(S())
      ensures r.Failure? ==> AtLimit(r.error)
    {
      hide Stores, SameValue, Frame, Extends;
      ghost var st0 := S();
      var e :- LuaKDischargeVars(e0, T, F);
      ghost var st1 := S();
      if e.k.VNonReloc? {
        if !HasJumps(e) {
          NoLists(code, e.t, T, F);
          ListEnd(code, e.t, T);
          assert Elems([]) == {};
          FrameRefl(C());
          StoresInPlace(st0, e0, st1, e);
          return Success(e);
        }
        if e.k.info >= nactvar {
          r := Exp2Reg(e, e.k.info, T, F);
          return;
        }
      }
      r := NextReg(e, T, F);
      if r.Failure? { return; }
      AfterVars(st0, e0, st1, e, T, F, S(), st0.freereg);
    }

    /** luaK_exp2val */
    method LuaKExp2Val(e: ExpDesc, ghost T: seq<int>, ghost F: seq<int>) returns (r: Result<ExpDesc>)
      requires Valid() && EdOk(S(), e, T, F) && VariableOk(e, nactvar)
      modifies this`code, this`jpc, this`jlist, this`k, this`h, this`pend, this`lasttarget, this`freereg, this`maxstacksize
      ensures r.Success? ==>
                && Valid() && Extends(old(S()), S()) && Frame(old(code), code, pend)
                && (if HasJumps(e) then
                      && r.value.k.VNonReloc? && r.value.t == NO_JUMP && r.value.f == NO_JUMP
                      && AnyReg(e, r.value.k.info, old(freereg), freereg, nactvar)
                      && pend == old(pend) - Elems(T) - Elems(F) - (if e.k.VJmp? then {e.k.info} else {})
                      && Stores(old(S()), e, T, F, S(), r.value.k.info)
                    else
                      && T == [] && F == [] && r.value.t == NO_JUMP && r.value.f == NO_JUMP
                      && pend == old(pend) && freereg == old(freereg) && EdOk(S(), r.value, [], [])
                      && (match e.k
                          case VLocal(reg) => r.value.k == VNonReloc(reg)
                          case VGlobal(_) => r.value.k == VReloc(|old(code)|)
                          case _ => r.value == e)
                      && (!e.k.VGlobal? ==> S() == old(S()))
                      && SameValue(old(S()), e, S(), r.value))
      ensures !HasJumps(e) && !e.k.VGlobal? ==> r.Success?
      ensures r.Failure? ==> AtLimit(r.error)
    {
      if HasJumps(e) {
        r := LuaKExp2AnyReg(e, T, F);
      } else {
        NoLists(code, e.t, T, F);
        ListEnd(code, e.t, T);
        r := LuaKDischargeVars(e, T, F);
      }
    }

    /** luaK_exp2RK: the value becomes a constant operand if it fits, a register otherwise. */
    method LuaKExp2RK(e0: ExpDesc, ghost T: seq<int>, ghost F: seq<int>) returns (r: Result<(int, ExpDesc)>)
      requires Valid() && EdOk(S(), e0, T, F) && VariableOk(e0, nactvar)
      modifies this`code, this`jpc, this`jlist, this`k, this`h, this`pend, this`lasttarget, this`freereg, this`maxstacksize
      ensures r.Success? ==>
                && Valid() && Extends(old(S()), S()) && Frame(old(code), code, pend)
                && pend == old(pend) - Elems(T) - Elems(F) - (if e0.k.VJmp? then {e0.k.info} else {})
                && Operand(r.value.1, r.value.0, |k|) && EdOk(S(), r.value.1, [], [])
                && OperandReg(e0, r.value.0, old(freereg), freereg, nactvar)
                && Operands(old(S()), e0, T, F, S(), r.value.0)
      ensures IsOperand(e0) ==> r.Success? && r.value.1 == e0 && S() == old(S())
      ensures r.Failure? ==> AtLimit(r.error)
    {
      if HasJumps(e0) {
        r := JumpOperand(e0, T, F);
      } else {
        NoLists(code, e0.t, T, F);
        ListEnd(code, e0.t, T);
        NoElems(T);
        r := PlainOperand(e0);
      }
    }

    method JumpOperand(e0: ExpDesc, ghost T: seq<int>, ghost F: seq<int>) returns (r: Result<(int, ExpDesc)>)
      requires Valid() && EdOk(S(), e0, T, F) && VariableOk(e0, nactvar) && HasJumps(e0)
      modifies this`code, this`jpc, this`jlist, this`k, this`h, this`pend, this`lasttarget, this`freereg, this`maxstacksize
      ensures r.Success? ==>
                && Valid() && Extends(old(S()), S()) && Frame(old(code), code, pend)
                && pend == old(pend) - Elems(T) - Elems(F) - (if e0.k.VJmp? then {e0.k.info} else {})
                && Operand(r.value.1, r.value.0, |k|) && EdOk(S(), r.value.1, [], [])
                && OperandReg(e0, r.value.0, old(freereg), freereg, nactvar)
                && Operands(old(S()), e0, T, F, S(), r.value.0)
      ensures r.Failure? ==> AtLimit(r.error)
    {
      ghost var st0 := S();
      var e :- LuaKExp2Val(e0, T, F);
      StoresIsOperand(st0, e0, T, F, S(), e.k.info);
      r := Success((e.k.info, e));
    }

    method PlainOperand(e0: ExpDesc) returns (r: Result<(int, ExpDesc)>)
      requires Valid() && EdOk(S(), e0, [], []) && VariableOk(e0, nactvar) && !HasJumps(e0)
      modifies this`code, this`jpc, this`jlist, this`k, this`h, this`pend, this`lasttarget, this`freereg, this`maxstacksize
      ensures r.Success? ==>
                && Valid() && Extends(old(S()), S()) && Frame(old(code), code, pend)
                && pend == old(pend) - (if e0.k.VJmp? then {e0.k.info} else {})
                && Operand(r.value.1, r.value.0, |k|) && EdOk(S(), r.value.1, [], [])
                && OperandReg(e0, r.value.0, old(freereg), freereg, nactvar)
                && Operands(old(S()), e0, [], [], S(), r.value.0)
      ensures IsOperand(e0) ==> r.Success? && r.value.1 == e0 && S() == old(S())
      ensures r.Failure? ==> AtLimit(r.error)
    {
      hide Operands, SameValue, Stores;
      ghost var st0 := S();
      var e :- LuaKExp2Val(e0, [], []);
      ghost var st1 := S();
      r := SimpleOperand(e);
      if r.Failure? { return; }
      OperandTrans(st0, e0, st1, e, S(), r.value.0);
    }

    /** luaK_exp2RK for a discharged descriptor without jumps. */
    method SimpleOperand(e: ExpDesc) returns (r: Result<(int, ExpDesc)>)
      requires Valid() && EdOk(S(), e, [], []) && VariableOk(e, nactvar)
      modifies this`code, this`jpc, this`jlist, this`k, this`h, this`pend, this`lasttarget, this`freereg, this`maxstacksize
      ensures r.Success? ==>
                && Valid() && Extends(old(S()), S()) && Frame(old(code), code, pend)
                && pend == old(pend) - (if e.k.VJmp? then {e.k.info} else {})
                && Operand(r.value.1, r.value.0, |k|) && EdOk(S(), r.value.1, [], [])
                && OperandReg(e, r.value.0, old(freereg), freereg, nactvar)
                && Operands(old(S()), e, [], [], S(), r.value.0)
      ensures IsOperand(e) ==> r.Success? && r.value.1 == e && S() == old(S())
      ensures r.Failure? ==> AtLimit(r.error)
    {
      hide Operands, Frame;
      ghost var st0 := S();
      var i :- ConstantIndex(e);
      if i >= 0 {
        FrameRefl(C());
        ConstantIsOperand(st0, e, S(), i);
        r := Success((i + BITRK, e.(k := VK(i))));
      } else {
        r := RegisterOperand(e);
      }
    }

    /** The index of a constant descriptor if it fits an RK operand, -1 otherwise. */
    method ConstantIndex(e: ExpDesc) returns (r: Result<int>)
      requires Valid() && EdOk(S(), e, [], [])
      modifies this`k, this`h
      ensures Valid() && |old(k)| <= |k| && k[..|old(k)|] == old(k)
      ensures r.Success? ==> if r.value >= 0 then r.value <= MAXINDEXRK && ConstantOf(e, k, r.value) else k == old(k)
      ensures IsOperand(e) ==> r.Success? && k == old(k) && r.value == if e.k.VK? then e.k.info else -1
      ensures r.Failure? ==> AtLimit(r.error)
    {
      r := Success(-1);
      match e.k {
        case VKNum(n) => if |k| <= MAXINDEXRK { r := AddK(n); }
        case VTrue => if |k| <= MAXINDEXRK { r := AddK(Boolean(true)); }
        case VFalse => if |k| <= MAXINDEXRK { r := AddK(Boolean(false)); }
        case VNil => if |k| <= MAXINDEXRK { r := AddK(Nil); }
        case VK(i) => if i <= MAXINDEXRK { r := Success(i); }
        case _ =>
      }
    }

    method RegisterOperand(e: ExpDesc) returns (r: Result<(int, ExpDesc)>)
      requires Valid() && EdOk(S(), e, [], []) && VariableOk(e, nactvar)
      modifies this`code, this`jpc, this`jlist, this`k, this`h, this`pend, this`lasttarget, this`freereg, this`maxstacksize
      ensures r.Success? ==>
                && Valid() && Extends(old(S()), S()) && Frame(old(code), code, pend)
                && pend == old(pend) - (if e.k.VJmp? then {e.k.info} else {})
                && Operand(r.value.1, r.value.0, |k|) && r.value.0 < BITRK && EdOk(S(), r.value.1, [], [])
                && AnyReg(e, r.value.0, old(freereg), freereg, nactvar)
                && Operands(old(S()), e, [], [], S(), r.value.0)
      ensures IsOperand(e) && e.k.VNonReloc? ==> r.Success? && r.value.1 == e && S() == old(S())
      ensures r.Failure? ==> AtLimit(r.error)
    {
      ghost var st0 := S();
      assert Elems([]) == {};
      var a :- LuaKExp2AnyReg(e, [], []);
      StoresIsOperand(st0, e, [], [], S(), a.k.info);
      r := Success((a.k.info, a));
    }
  }

  ghost predicate ConstantOf(e: ExpDesc, k: seq<Value>, i: int) {
    0 <= i < |k| &&
    match e.k
    case VK(j) => i == j
    case VKNum(n) => k[i] == n
    case VTrue => k[i] == Boolean(true)
    case VFalse => k[i] == Boolean(false)
    case VNil => k[i] == Nil
    case _ => false
  }

  /** The operand encoded in a descriptor. */
  predicate Operand(e: ExpDesc, o: int, nk: int) {
    e.t == NO_JUMP && e.f == NO_JUMP &&
    match e.k
    case VK(i) => 0 <= i <= MAXINDEXRK && i < nk && o == i + BITRK
    case VNonReloc(reg) => 0 <= reg < LUAI_MAXSTACK && o == reg
    case _ => false
  }

  /** A descriptor that luaK_exp2RK leaves as it is. */
  predicate IsOperand(e: ExpDesc) {
    e.t == NO_JUMP && e.f == NO_JUMP &&
    match e.k
    case VK(i) => i <= MAXINDEXRK
    case VNonReloc(_) => true
    case _ => false
  }

  ghost predicate OperandReg(e: ExpDesc, o: int, free0: int, free1: int, nactvar: int) {
    if o >= BITRK then free1 == free0 else AnyReg(e, o, free0, free1, nactvar)
  }

  ghost predicate SetOperand(env: Env, R: Regs, R': Regs, o: int, v: Value) {
    RK(env, R', o) == v && forall i :: 0 <= i < 256 && i != o ==> R'[i] == R[i]
  }

  ghost predicate OperandAt(x: At, st0: St, e: ExpDesc, T: seq<int>, F: seq<int>, st1: St, opd: int) {
    var o, o' := Out(x, Core(st0.c, e)), Out(x, st1.c);
    PreAt(x, st0, st1.k) && x.s <= |Core(st0.c, e).code| && o != Stuck ==>
      if o.Fall? then
        match Rep(x.env, st0.c.code, e, o.R)
        case None => o' == Error
        case Some(v) => o'.Fall? && SetOperand(x.env, o.R, o'.R, opd, v)
      else if o.Exit? && (o.p in T || o.p in F) then
        o'.Fall? && SetOperand(x.env, o.R, o'.R, opd, JumpVal(st0.c.code, o.p, o.R, o.p in T))
      else
        o' == o
  }

  ghost predicate Operands(st0: St, e: ExpDesc, T: seq<int>, F: seq<int>, st1: St, opd: int) {
    forall x :: OperandAt(x, st0, e, T, F, st1, opd)
  }

  lemma StoresIsOperand(st0: St, e: ExpDesc, T: seq<int>, F: seq<int>, st1: St, reg: int)
    requires Stores(st0, e, T, F, st1, reg) && 0 <= reg < BITRK
    ensures Operands(st0, e, T, F, st1, reg)
  {
    forall x ensures OperandAt(x, st0, e, T, F, st1, reg) {
      assert StoreAt(x, st0, e, T, F, st1, reg);
    }
  }

  lemma OperandTrans(st0: St, e0: ExpDesc, st1: St, e1: ExpDesc, st2: St, opd: int)
    requires SameValue(st0, e0, st1, e1) && Operands(st1, e1, [], [], st2, opd) && Extends(st0, st1) && Extends(st1, st2)
    requires |Core(st1.c, e1).code| == |Core(st0.c, e0).code| <= |st0.c.code|
    requires Frame(st0.c.code, st1.c.code, st1.c.pend) && Frame(st1.c.code, st2.c.code, st2.c.pend) && st2.c.pend <= st1.c.pend
    ensures Operands(st0, e0, [], [], st2, opd)
    ensures Extends(st0, st2) && Frame(st0.c.code, st2.c.code, st2.c.pend)
  {
    ExtendsTrans(st0, st1, st2);
    FrameTrans(st0.c.code, st1.c.code, st2.c.code, st1.c.pend, st2.c.pend, st2.c.pend);
    forall x ensures OperandAt(x, st0, e0, [], [], st2, opd) {
      assert SameValueAt(x, st0, e0, st1, e1) && OperandAt(x, st1, e1, [], [], st2, opd);
      if PreAt(x, st0, st2.k) && x.s <= |Core(st0.c, e0).code| {
        PreMono(x, st0, st1, st2.k);
      }
    }
  }

  lemma ConstantIsOperand(st0: St, e: ExpDesc, st1: St, i: int)
    requires st1.c == st0.c && ConstantOf(e, st1.k, i)
    ensures Operands(st0, e, [], [], st1, i + BITRK)
  {
    var opd := i + BITRK;
    forall x ensures OperandAt(x, st0, e, [], [], st1, opd) {
      assert Consistent(x.env, st1.k) ==> x.env.k(i) == st1.k[i];
    }
  }

  /** A register descriptor names an active local. */
  predicate LocalReg(e: ExpDesc, nactvar: int) {
    (e.k.VNonReloc? || e.k.VLocal?) ==> e.k.info < nactvar
  }

  predicate VariableOk(e: ExpDesc, nactvar: int) {
    e.k.VLocal? ==> e.k.info < nactvar
  }

  /** Where luaK_exp2anyreg puts a value: in the next register, or it stays in the one it has. */
  ghost predicate AnyReg(e: ExpDesc, reg: int, free0: int, free1: int, nactvar: int) {
    || (reg == free0 && free1 == free0 + 1)
    || ((e.k.VNonReloc? || e.k.VLocal?) && reg == e.k.info && free1 == free0 && (HasJumps(e) ==> reg >= nactvar))
  }

  /** A value without jumps that is in a register already. */
  lemma StoresInPlace(st0: St, e0: ExpDesc, st1: St, e: ExpDesc)
    requires SameValue(st0, e0, st1, e) && e.k.VNonReloc? && !HasJumps(e)
    requires Core(st1.c, e) == st1.c && |Core(st0.c, e0).code| <= |st0.c.code|
    ensures Stores(st0, e0, [], [], st1, e.k.info)
  {
    forall x ensures StoreAt(x, st0, e0, [], [], st1, e.k.info) {
      assert SameValueAt(x, st0, e0, st1, e);
    }
  }

  /** A value stored after variables were read is the value of the descriptor before that. */
  lemma AfterVars(st0: St, e0: ExpDesc, st1: St, e: ExpDesc, T: seq<int>, F: seq<int>, st2: St, reg: int)
    requires SameValue(st0, e0, st1, e) && Extends(st0, st1) && Frame(st0.c.code, st1.c.code, st0.c.pend)
    requires |Core(st1.c, e).code| == |Core(st0.c, e0).code| <= |st0.c.code| && Elems(T) + Elems(F) <= st0.c.pend
    requires Stores(st1, e, T, F, st2, reg) && Extends(st1, st2) && Frame(st1.c.code, st2.c.code, st2.c.pend) && st2.c.pend <= st0.c.pend
    ensures Stores(st0, e0, T, F, st2, reg) && Extends(st0, st2) && Frame(st0.c.code, st2.c.code, st2.c.pend)
  {
    hide Stores, SameValue, Frame, Extends, SameControls;
    ElemsAppend(T, F);
    FrameControls(st0.c.code, st1.c.code, st0.c.pend, T + F);
    StoreTrans(st0, e0, st1, e, T, F, st2, reg);
    ExtendsTrans(st0, st1, st2);
    FrameTrans(st0.c.code, st1.c.code, st2.c.code, st0.c.pend, st2.c.pend, st2.c.pend);
  }

  lemma StoreTrans(st0: St, e0: ExpDesc, st1: St, e1: ExpDesc, T: seq<int>, F: seq<int>, st2: St, reg: int)
    requires SameValue(st0, e0, st1, e1) && Stores(st1, e1, T, F, st2, reg) && Extends(st0, st1) && Extends(st1, st2)
    requires |Core(st1.c, e1).code| == |Core(st0.c, e0).code| <= |st0.c.code|
    requires SameControls(st0.c.code, st1.c.code, T + F)
    ensures Stores(st0, e0, T, F, st2, reg)
  {
    forall x ensures StoreAt(x, st0, e0, T, F, st2, reg) {
      assert SameValueAt(x, st0, e0, st1, e1) && StoreAt(x, st1, e1, T, F, st2, reg);
      if PreAt(x, st0, st2.k) && x.s <= |Core(st0.c, e0).code| {
        PreMono(x, st0, st1, st2.k);
        var o := Out(x, Core(st0.c, e0));
        if o.Exit? && (o.p in T || o.p in F) {
          assert o.p in T + F && SameControl(st0.c.code, st1.c.code, o.p);
        }
      }
    }
  }

  /** The number of registers in use does not matter for what a run stores. */
  lemma StoresFree(st0: St, st1: St, e: ExpDesc, T: seq<int>, F: seq<int>, st2: St, reg: int)
    requires st1 == st0.(freereg := st1.freereg) && Stores(st1, e, T, F, st2, reg)
    ensures Stores(st0, e, T, F, st2, reg)
  {
    forall x ensures StoreAt(x, st0, e, T, F, st2, reg) {
      assert StoreAt(x, st1, e, T, F, st2, reg);
    }
  }

  lemma NoLists(code: seq<Instr>, t: int, T: seq<int>, F: seq<int>)
    requires ListOf(code, t, T) && ListOf(code, t, F) && Elems(T) !! Elems(F)
    ensures T == [] && F == []
  {
    ListEnd(code, t, T);
    ListEnd(code, t, F);
    assert t != NO_JUMP ==> t in Elems(T);
  }

  ghost predicate FinishedAt(x: At, st0: St, st1: St, T: seq<int>, F: seq<int>, reg: int, isJmp: bool) {
    var o, o' := Out(x, st0.c), Out(x, st1.c);
    o != Stuck ==>
      if o.Exit? && (o.p in T || o.p in F) then
        o'.Fall? && SetTo(o.R, o'.R, reg, JumpVal(st0.c.code, o.p, o.R, o.p in T))
      else if isJmp && o.Fall? then
        o'.Fall? && SetTo(o.R, o'.R, reg, Boolean(false))
      else
        o' == o
  }

  ghost predicate Finished(st0: St, st1: St, T: seq<int>, F: seq<int>, reg: int, isJmp: bool) {
    forall x :: FinishedAt(x, st0, st1, T, F, reg, isJmp)
  }

  lemma FinishedFrom(st0: St, st1: St, st2: St, T: seq<int>, F: seq<int>, reg: int, isJmp: bool)
    requires Labelled(st0, st1, reg, isJmp) && Finals(st1, st2, T, F, reg) && SameControls(st0.c.code, st1.c.code, T + F)
    ensures Finished(st0, st2, T, F, reg, isJmp)
  {
    forall x ensures FinishedAt(x, st0, st2, T, F, reg, isJmp) {
      assert LabelledAt(x, st0, st1, reg, isJmp) && FinalAt(x, st1, st2, T, F, reg);
      var o := Out(x, st0.c);
      if o.Exit? && (o.p in T || o.p in F) {
        assert o.p in T + F && SameControl(st0.c.code, st1.c.code, o.p);
      }
    }
  }

  lemma EarlierJumps(c: Code, T: seq<int>, F: seq<int>, pf: int)
    requires Jumps(c) && Elems(T) + Elems(F) <= c.pend && |c.code| <= pf
    ensures forall p :: p in T || p in F ==> p < pf
  {
    forall p | p in T || p in F ensures p < pf {
      assert p in Elems(T) + Elems(F) && JumpAt(c, p);
    }
  }

  lemma StoresValue(st0: St, e: ExpDesc, T: seq<int>, F: seq<int>, st1: St, st2: St, reg: int)
    requires Delivers(st0, e, st1, reg) && Finished(st1, st2, T, F, reg, false) && st2.k == st1.k
    requires SameControls(st0.c.code, st1.c.code, T + F)
    ensures Stores(st0, e, T, F, st2, reg)
  {
    forall x ensures StoreAt(x, st0, e, T, F, st2, reg) {
      assert DeliverAt(x, st0, e, st1, reg) && FinishedAt(x, st1, st2, T, F, reg, false);
      var o := Out(x, Core(st0.c, e));
      if o.Exit? && (o.p in T || o.p in F) {
        assert o.p in T + F && SameControl(st0.c.code, st1.c.code, o.p);
      }
    }
  }

  lemma Landed(st0: St, e: ExpDesc, st1: St, T: seq<int>, F: seq<int>, st2: St, reg: int)
    requires Delivers(st0, e, st1, reg) && Extends(st0, st1) && Frame(st0.c.code, st1.c.code, st0.c.pend) && st1.c.pend == st0.c.pend
    requires Finished(st1, st2, T, F, reg, false) && st2.k == st1.k && Extends(st1, st2) && Frame(st1.c.code, st2.c.code, st2.c.pend)
    requires Elems(T) + Elems(F) <= st0.c.pend && st2.c.pend <= st0.c.pend
    ensures Stores(st0, e, T, F, st2, reg) && Extends(st0, st2) && Frame(st0.c.code, st2.c.code, st2.c.pend)
  {
    hide Stores, Delivers, Finished, Frame, Extends, SameControls;
    ElemsAppend(T, F);
    FrameControls(st0.c.code, st1.c.code, st0.c.pend, T + F);
    StoresValue(st0, e, T, F, st1, st2, reg);
    ExtendsTrans(st0, st1, st2);
    FrameTrans(st0.c.code, st1.c.code, st2.c.code, st0.c.pend, st2.c.pend, st2.c.pend);
  }

  lemma StoresComparison(st0: St, e: ExpDesc, T: seq<int>, F: seq<int>, st1: St, st2: St, reg: int)
    requires e.k.VJmp? && 1 <= e.k.info <= |st0.c.code| && e.k.info !in T && e.k.info !in F
    requires JumpsOut(st0, e, st1) && Finished(st1, st2, T + [e.k.info], F, reg, true)
    requires SameControls(st0.c.code, st1.c.code, T + F) && !Controlled(st1.c.code, e.k.info)
    requires forall R, env :: Rep(env, st0.c.code, e, R).Some? ==> Rep(env, st0.c.code, e, R).value.Boolean?
    ensures Stores(st0, e, T, F, st2, reg)
  {
    forall x ensures StoreAt(x, st0, e, T, F, st2, reg) {
      assert JumpsOutAt(x, st0, e, st1) && FinishedAt(x, st1, st2, T + [e.k.info], F, reg, true);
      ExitsArePending(x.env, Core(st0.c, e), x.s, x.R0);
      var o := Out(x, Core(st0.c, e));
      if o.Exit? && (o.p in T || o.p in F) {
        assert o.p in T + F && SameControl(st0.c.code, st1.c.code, o.p);
      }
    }
  }

  ghost predicate LabelsAt(code: seq<Instr>, pf: int, pt: int, reg: int) {
    0 <= pf && pt == pf + 1 == |code| - 1 && code[pf] == LoadBool(reg, 0, 1) && code[pt] == LoadBool(reg, 1, 0)
  }

  /** Falling off the end now goes past the labels, or, for a comparison that did not jump, through the
      first of them. */
  ghost predicate LabelledAt(x: At, st0: St, st1: St, reg: int, isJmp: bool) {
    var o, o' := Out(x, st0.c), Out(x, st1.c);
    o != Stuck ==>
      if isJmp && o.Fall? then o'.Fall? && SetTo(o.R, o'.R, reg, Boolean(false)) else o' == o
  }

  ghost predicate Labelled(st0: St, st1: St, reg: int, isJmp: bool) {
    forall x :: LabelledAt(x, st0, st1, reg, isJmp)
  }

  /** The states around the labels: st1 after the jump, st2 after the labels, st3 after luaK_patchtohere. */
  ghost predicate AroundLabels(st0: St, st1: St, isJmp: bool, J: seq<int>) {
    if isJmp then st1 == st0 && J == []
    else
      && |st1.c.code| == |st0.c.code| + 1 && st1.c.code[..|st0.c.code|] == st0.c.code
      && st1.c.code[|st0.c.code|].Jmp? && st1.c.here == {}
      && st1.c.pend == st0.c.pend + st0.c.here + {|st0.c.code|} && Elems(J) == st0.c.here + {|st0.c.code|}
  }

  lemma JumpListKept(st0: St, st1: St, st2: St, fj: int, J: seq<int>, isJmp: bool)
    requires Jumps(st0.c) && AroundLabels(st0, st1, isJmp, J) && st2.c.pend == st1.c.pend
    requires ListOf(st1.c.code, fj, J) && Frame(st1.c.code, st2.c.code, st1.c.pend)
    ensures ListOf(st2.c.code, fj, J) && Elems(J) <= st2.c.pend
    ensures st2.c.pend - Elems(J) == st0.c.pend
  {
    forall p | p in J ensures KeptJump(st1.c.code, st2.c.code, p) {
      assert p in Elems(J);
    }
    ListFrame(st1.c.code, st2.c.code, fj, J);
    assert JumpAt(st0.c, |st0.c.code|);
  }

  lemma LabelsFrame(st0: St, st1: St, st2: St, st3: St, J: seq<int>, isJmp: bool, reg: int)
    requires Jumps(st0.c) && EndsWithin(st0.c, |st0.c.code|) && Jumps(st2.c) && AroundLabels(st0, st1, isJmp, J)
    requires Coded(st1.c, st2.c, [LoadBool(reg, 0, 1), LoadBool(reg, 1, 0)], {})
    requires Frame(st1.c.code, st2.c.code, st1.c.pend) && Frame(st2.c.code, st3.c.code, st3.c.pend)
    requires st3.c.pend == st0.c.pend && Held(st2.c, st3.c)
    ensures Frame(st0.c.code, st3.c.code, st0.c.pend)
    ensures LabelsAt(st3.c.code, |st1.c.code|, |st1.c.code| + 1, reg)
  {
    var n := |st1.c.code|;
    forall p | p in st0.c.pend ensures KeptJump(st0.c.code, st3.c.code, p) {
      assert JumpAt(st0.c, p);
      assert KeptJump(st1.c.code, st2.c.code, p) && KeptJump(st2.c.code, st3.c.code, p);
    }
    assert st2.c.code[n] == st2.c.code[n..][0] && st2.c.code[n + 1] == st2.c.code[n..][1];
    assert HeldAt(st2.c, st3.c, n) && HeldAt(st2.c, st3.c, n + 1) && JumpAt(st2.c, n) && JumpAt(st2.c, n + 1);
  }

  lemma LabelsRun(st0: St, st1: St, st2: St, st3: St, reg: int, J: seq<int>, isJmp: bool)
    requires Jumps(st0.c) && EndsWithin(st0.c, |st0.c.code|) && 0 <= reg < 256 && Jumps(st1.c) && Jumps(st2.c) && Jumps(st3.c)
    requires AroundLabels(st0, st1, isJmp, J)
    requires Coded(st1.c, st2.c, [LoadBool(reg, 0, 1), LoadBool(reg, 1, 0)], {})
    requires Held(st2.c, st3.c) && st3.c.here == Elems(J) && st3.c.pend == st0.c.pend
    ensures Labelled(st0, st3, reg, isJmp)
  {
    var n := |st1.c.code|;
    var X := [LoadBool(reg, 0, 1), LoadBool(reg, 1, 0)];
    assert st2.c.code[n] == st2.c.code[n..][0];
    forall x ensures LabelledAt(x, st0, st3, reg, isJmp) {
      if Out(x, st0.c) != Stuck {
        if !isJmp {
          JumpedRun(x.env, st0.c, st1.c, x.s, x.R0);
        }
        CodedRun(x.env, st1.c, st2.c, X, {}, x.s, x.R0);
        HoldRun(x.env, st2.c, st3.c, x.s, x.R0);
        ExitsArePending(x.env, st0.c, x.s, x.R0);
      }
    }
  }

  lemma {:induction false} ExitsArePending(env: Env, c: Code, pc: int, R: Regs)
    ensures Run(env, c, pc, R).Exit? ==> Run(env, c, pc, R).p in c.pend
    decreases |c.code| - pc
  {
    if 0 <= pc < |c.code| {
      var i := c.code[pc];
      if i.Jmp? {
        if pc !in c.pend && pc !in c.here && i.sbx >= 0 {
          ExitsArePending(env, c, pc + 1 + i.sbx, R);
        }
      } else if IsTest(i) {
        var t := TestResult(env, i, R);
        if t == Some(false) {
          ExitsArePending(env, c, pc + 2, R);
        } else if t == Some(true) && pc + 1 < |c.code| && c.code[pc + 1].Jmp? && c.code[pc + 1].sbx >= 0 {
          ExitsArePending(env, c, pc + 2 + c.code[pc + 1].sbx, if i.TestSet? then SetReg(R, i.a, Reg(R, i.b)) else R);
        }
      } else if IsValueInstr(i) {
        var v := InstrValue(env, i, R);
        if v.Some? {
          ExitsArePending(env, c, pc + 1, SetReg(R, i.a, v.value));
        }
      } else if i.LoadBool? {
        ExitsArePending(env, c, if i.c != 0 then pc + 2 else pc + 1, SetReg(R, i.a, Boolean(i.b != 0)));
      } else if i.LoadNil? {
        ExitsArePending(env, c, pc + 1, NilRange(R, i.a, i.b));
      }
    }
  }

  // ---------------------------------------------------------------------------
  // The end of exp2reg
  // ---------------------------------------------------------------------------

  /** Every jump that needs a label finds one after it. */
  ghost predicate Labelable(code: seq<Instr>, T: seq<int>, F: seq<int>, pf: int, pt: int, reg: int) {
    || (forall p :: p in T || p in F ==> Controlled(code, p))
    || (LabelsAt(code, pf, pt, reg) && forall p :: p in T || p in F ==> p < pf)
  }

  ghost predicate FinalAt(x: At, st0: St, st1: St, T: seq<int>, F: seq<int>, reg: int) {
    var o, o' := Out(x, st0.c), Out(x, st1.c);
    o != Stuck ==>
      if o.Exit? && (o.p in T || o.p in F) then
        o'.Fall? && SetTo(o.R, o'.R, reg, JumpVal(st0.c.code, o.p, o.R, o.p in T))
      else
        o' == o
  }

  ghost predicate Finals(st0: St, st1: St, T: seq<int>, F: seq<int>, reg: int) {
    forall x :: FinalAt(x, st0, st1, T, F, reg)
  }

  ghost predicate Stores(st0: St, e: ExpDesc, T: seq<int>, F: seq<int>, st1: St, reg: int) {
    forall x :: StoreAt(x, st0, e, T, F, st1, reg)
  }

  lemma PatchLists(code: seq<Instr>, code': seq<Instr>, final: int, reg: int, dtarget: int, t: int, T: seq<int>, F: seq<int>)
    requires ListOf(code, t, T) && Elems(T) !! Elems(F) && Patched(code, code', Elems(F), final, reg, dtarget)
    ensures ListOf(code', t, T)
  {
    ListJumps(code, t, T);
    forall p | p in T ensures 0 <= p < |code| && code'[p] == code[p] {
      assert p in Elems(T);
      assert code'[p] == PatchedAt(code, Elems(F), final, reg, dtarget, p);
    }
    ListFrame(code, code', t, T);
  }

  lemma PatchedKeeps(c0: Code, c1: Code, L: seq<int>, final: int, reg: int, dtarget: int)
    requires Jumps(c0) && Elems(L) <= c0.pend && Patched(c0.code, c1.code, Elems(L), final, reg, dtarget)
    requires c1.pend == c0.pend - Elems(L) && c1.here == c0.here
    requires EndsWithin(c0, |c0.code|) && final == |c0.code|
    requires forall p :: p in L ==> Controlled(c0.code, p) || dtarget <= final
    ensures Jumps(c1) && Frame(c0.code, c1.code, c1.pend) && EndsWithin(c1, |c1.code|)
    ensures |c1.code| > 0 ==> (c1.code[|c1.code| - 1].LoadNil? <==> c0.code[|c1.code| - 1].LoadNil?)
    ensures |c1.code| > 0 && c1.code[|c1.code| - 1].LoadNil? ==> c1.code[|c1.code| - 1] == c0.code[|c1.code| - 1]
  {
    forall p ensures JumpAt(c1, p) {
      assert JumpAt(c0, p);
      if 0 <= p < |c0.code| { assert c1.code[p] == PatchedAt(c0.code, Elems(L), final, reg, dtarget, p); }
    }
    forall p | p in c1.pend ensures KeptJump(c0.code, c1.code, p) {
      assert JumpAt(c0, p) && JumpAt(c0, p - 1);
      assert c1.code[p] == PatchedAt(c0.code, Elems(L), final, reg, dtarget, p);
      if p > 0 { assert c1.code[p - 1] == PatchedAt(c0.code, Elems(L), final, reg, dtarget, p - 1); }
    }
    forall i ensures TargetOk(c1, i, final) {
      assert TargetOk(c0, i, final) && JumpAt(c0, i) && JumpAt(c0, i + 1);
      if 0 <= i < |c0.code| { assert c1.code[i] == PatchedAt(c0.code, Elems(L), final, reg, dtarget, i); }
    }
    if final > 0 {
      assert JumpAt(c0, final - 1) && JumpAt(c0, final);
      assert c1.code[final - 1] == PatchedAt(c0.code, Elems(L), final, reg, dtarget, final - 1);
    }
  }

  lemma LabelsStay(c0: Code, c1: Code, T: seq<int>, F: seq<int>, final: int, pf: int, pt: int, reg: int)
    requires Jumps(c0) && Elems(T) + Elems(F) <= c0.pend && Labelable(c0.code, T, F, pf, pt, reg)
    requires Patched(c0.code, c1.code, Elems(F), final, reg, pf) && Frame(c0.code, c1.code, Elems(T))
    requires final == |c0.code|
    ensures forall p :: p in T ==> Controlled(c1.code, p) || pt <= final
    ensures forall p :: p in T || p in F ==> Controlled(c0.code, p) || (LabelsAt(c0.code, pf, pt, reg) && LabelsAt(c1.code, pf, pt, reg) && p < pf)
  {
    forall p | p in T || p in F
      ensures p in T ==> KeptJump(c0.code, c1.code, p)
      ensures Controlled(c0.code, p) || (LabelsAt(c0.code, pf, pt, reg) && LabelsAt(c1.code, pf, pt, reg) && p < pf)
    {
      assert p in Elems(T) + Elems(F) && JumpAt(c0, p);
      if !Controlled(c0.code, p) {
        assert c1.code[pf] == PatchedAt(c0.code, Elems(F), final, reg, pf, pf);
        assert c1.code[pt] == PatchedAt(c0.code, Elems(F), final, reg, pf, pt);
      }
    }
  }

  lemma FinalsRun(st0: St, mid: Code, st1: St, T: seq<int>, F: seq<int>, reg: int, pf: int, pt: int)
    requires var c0, c1, n := st0.c, st1.c, |st0.c.code|;
             && Jumps(c0) && Jumps(mid) && 0 <= reg < NO_REG
             && Elems(T) + Elems(F) <= c0.pend && Elems(T) !! Elems(F) && Labelable(c0.code, T, F, pf, pt, reg)
             && Patched(c0.code, mid.code, Elems(F), n, reg, pf) && mid.pend == c0.pend - Elems(F) && mid.here == c0.here
             && Patched(mid.code, c1.code, Elems(T), n, reg, pt) && c1.pend == mid.pend - Elems(T) && c1.here == c0.here
             && Frame(c0.code, mid.code, mid.pend)
    ensures Finals(st0, st1, T, F, reg)
  {
    var c0, c1, n := st0.c, st1.c, |st0.c.code|;
    LabelsStay(c0, mid, T, F, n, pf, pt, reg);
    forall p | p in F ensures p < Dest(c0.code, p, n, pf) {
      assert p in Elems(F) && JumpAt(c0, p);
    }
    forall p | p in T ensures p < Dest(mid.code, p, n, pt) {
      assert p in Elems(T) && JumpAt(c0, p) && KeptJump(c0.code, mid.code, p);
    }
    forall p | p in T ensures 0 <= p < n && mid.code[p].Jmp? {
      assert p in Elems(T) && JumpAt(mid, p);
    }
    forall x ensures FinalAt(x, st0, st1, T, F, reg) {
      FinalRunAt(x, st0, mid, st1, T, F, reg, pf, pt);
    }
  }

  lemma FinalRunAt(x: At, st0: St, mid: Code, st1: St, T: seq<int>, F: seq<int>, reg: int, pf: int, pt: int)
    requires var c0, c1, n := st0.c, st1.c, |st0.c.code|;
             && Jumps(c0) && Jumps(mid) && 0 <= reg < NO_REG
             && Elems(T) + Elems(F) <= c0.pend && Elems(T) !! Elems(F)
             && Patched(c0.code, mid.code, Elems(F), n, reg, pf) && mid.pend == c0.pend - Elems(F) && mid.here == c0.here
             && Patched(mid.code, c1.code, Elems(T), n, reg, pt) && c1.pend == mid.pend - Elems(T) && c1.here == c0.here
             && Frame(c0.code, mid.code, mid.pend)
             && (forall p :: p in F ==> p < Dest(c0.code, p, n, pf))
             && (forall p :: p in T ==> p < Dest(mid.code, p, n, pt) && 0 <= p < n && mid.code[p].Jmp?)
             && (forall p :: p in T || p in F ==>
                   Controlled(c0.code, p) || (LabelsAt(c0.code, pf, pt, reg) && LabelsAt(mid.code, pf, pt, reg) && p < pf))
    ensures FinalAt(x, st0, st1, T, F, reg)
  {
    hide Patched;
    var c0, c1, n := st0.c, st1.c, |st0.c.code|;
    var o := Out(x, c0);
    PatchedLength(c0.code, mid.code, Elems(F), n, reg, pf);
    PatchedLength(mid.code, c1.code, Elems(T), n, reg, pt);
    if o != Stuck {
      PatchRun(x.env, c0, mid, Elems(F), n, reg, pf, x.s, x.R0);
      if o.Exit? && o.p in T {
        assert o.p in Elems(T) && KeptJump(c0.code, mid.code, o.p);
      }
      PatchRun(x.env, mid, c1, Elems(T), n, reg, pt, x.s, x.R0);
      if LabelsAt(mid.code, pf, pt, reg) {
        LabelsIntact(mid.code, c1.code, T, n, pf, pt, reg);
      }
    }
  }

  lemma PatchedLength(code: seq<Instr>, code': seq<Instr>, L: set<int>, vtarget: int, reg: int, dtarget: int)
    requires Patched(code, code', L, vtarget, reg, dtarget)
    ensures |code'| == |code|
  {
  }

  lemma FinishedNothing(st: St, reg: int)
    ensures Finished(st, st, [], [], reg, false)
  {
  }

  lemma LabelledNothing(st: St, reg: int)
    ensures Labelled(st, st, reg, false)
  {
  }

  lemma LabelsIntact(code: seq<Instr>, code': seq<Instr>, T: seq<int>, final: int, pf: int, pt: int, reg: int)
    requires LabelsAt(code, pf, pt, reg) && Patched(code, code', Elems(T), final, reg, pt)
    requires forall p :: p in T ==> 0 <= p < |code| && code[p].Jmp?
    ensures LabelsAt(code', pf, pt, reg)
  {
    assert code'[pf] == PatchedAt(code, Elems(T), final, reg, pt, pf);
    assert code'[pt] == PatchedAt(code, Elems(T), final, reg, pt, pt);
  }

  lemma NoElems(L: seq<int>)
    ensures Elems(L) == {} <==> L == []
  {
    if L != [] {
      assert L[0] in Elems(L);
    }
  }

  lemma HeadsApart(code: seq<Instr>, J: seq<int>, L: seq<int>, pend: set<int>)
    requires Jumps(Code(code, pend, Elems(J))) && Elems(L) <= pend
    ensures Elems(J) !! Elems(L)
  {
  }

  lemma HereKeeps(c0: Code, c1: Code, J: seq<int>, L: seq<int>, lasttarget: int)
    requires Jumps(c0) && EndsWithin(c0, |c0.code|) && c0.here == Elems(J) && Elems(L) <= c0.pend
    requires |c1.code| == |c0.code| && c1.here == c0.here + Elems(L) && c1.pend == c0.pend - Elems(L)
    requires forall p :: 0 <= p < |c0.code| ==> c1.code[p] == c0.code[p] || (p in J && c1.code[p].Jmp?)
    ensures Jumps(c1) && EndsWithin(c1, |c1.code|) && Held(c0, c1) && Frame(c0.code, c1.code, c1.pend)
    ensures |c1.code| > 0 ==> (c1.code[|c1.code| - 1].LoadNil? <==> c0.code[|c1.code| - 1].LoadNil?)
    ensures |c1.code| > 0 && c1.code[|c1.code| - 1].LoadNil? ==> c1.code[|c1.code| - 1] == c0.code[|c1.code| - 1]
  {
    var n := |c0.code|;
    assert forall p :: p in J ==> p in c0.here;
    forall p ensures JumpAt(c1, p) {
      assert JumpAt(c0, p);
    }
    forall i ensures HeldAt(c0, c1, i) {
      assert JumpAt(c0, i);
    }
    forall i ensures TargetOk(c1, i, n) {
      assert TargetOk(c0, i, n) && JumpAt(c0, i);
    }
    forall p | p in c1.pend ensures KeptJump(c0.code, c1.code, p) {
      assert JumpAt(c0, p) && JumpAt(c0, p - 1);
      assert p !in J;
    }
    if n > 0 { assert JumpAt(c0, n - 1); }
  }

  lemma CodedTwice(c0: Code, c1: Code, c2: Code, i: Instr, j: Instr)
    requires Jumps(c0) && Coded(c0, c1, [i], {}) && Coded(c1, c2, [j], {})
    ensures Coded(c0, c2, [i, j], {})
  {
    var n := |c0.code|;
    NothingPatched(c1.code, c2.code[..n + 1], n + 1, NO_REG, n + 1);
    assert c2.code[..n] == c2.code[..n + 1][..n] == c1.code[..n];
    assert c2.code[n] == c2.code[..n + 1][n] == c1.code[n] == c1.code[n..][0];
    assert c2.code[n + 1] == c2.code[n + 1..][0];
    assert c2.code[n..] == [i, j];
  }

  /** A comparison descriptor has become a pending jump. */
  ghost predicate JumpsOutAt(x: At, st0: St, e: ExpDesc, st1: St) {
    var o, o' := Out(x, Core(st0.c, e)), Out(x, st1.c);
    e.k.VJmp? && (o != Stuck ==>
      if o.Fall? then
        match Rep(x.env, st0.c.code, e, o.R)
        case None => o' == Error
        case Some(v) => o' == if v == Boolean(true) then Exit(e.k.info, o.R) else Fall(o.R)
      else
        o' == o)
  }

  ghost predicate JumpsOut(st0: St, e: ExpDesc, st1: St) {
    forall x :: JumpsOutAt(x, st0, e, st1)
  }

  lemma JoinRun(st0: St, e: ExpDesc, st1: St, pc: int)
    requires Jumps(st0.c) && Jumps(st1.c) && e.k == VJmp(pc) && pc == |st0.c.code| - 1 >= 1 && st0.c.code[pc - 1].Cmp?
    requires st0.c.here == {} && pc in st0.c.pend
    requires |st1.c.code| == |st0.c.code| && st1.c.pend == st0.c.pend && st1.c.here == st0.c.here
    requires forall i :: HeldAt(st0.c, st1.c, i)
    ensures JumpsOut(st0, e, st1)
  {
    var n := |st0.c.code|;
    var d := Core(st0.c, e);
    forall p ensures JumpAt(d, p) {
      assert JumpAt(st0.c, p);
      assert st0.c.code[n - 2].Cmp?;
    }
    assert JumpAt(st0.c, pc);
    forall x ensures JumpsOutAt(x, st0, e, st1) {
      if Out(x, d) != Stuck {
        AppendRun(x.env, d, st0.c, x.s, x.R0);
        HoldRun(x.env, st0.c, st1.c, x.s, x.R0);
      }
    }
  }

  lemma JoinKeeps(st0: St, e: ExpDesc, st1: St, pc: int, T: seq<int>, F: seq<int>)
    requires Jumps(st0.c) && EndsWithin(st0.c, |st0.c.code|) && EdOk(st0, e, T, F) && e.k == VJmp(pc)
    requires st1.k == st0.k && st1.nactvar == st0.nactvar && st1.lasttarget == st0.lasttarget
    requires |st1.c.code| == |st0.c.code| && st1.c.pend == st0.c.pend && st1.c.here == st0.c.here
    requires forall p :: 0 <= p < |st0.c.code| ==> st1.c.code[p] == st0.c.code[p] || (p in T && st1.c.code[p].Jmp?)
    ensures Jumps(st1.c) && EndsWithin(st1.c, |st1.c.code|) && JumpsOut(st0, e, st1) && ListOf(st1.c.code, e.f, F)
    ensures Frame(st0.c.code, st1.c.code, st0.c.pend - Elems(T) - {pc})
    ensures st1.c.code[pc].Jmp? && Extends(st0, st1)
    ensures SameControls(st0.c.code, st1.c.code, T + F) && !Controlled(st1.c.code, pc)
  {
    var n := |st0.c.code|;
    assert forall p :: p in T ==> p in Elems(T);
    forall p ensures JumpAt(st1.c, p) {
      assert JumpAt(st0.c, p);
    }
    forall i ensures TargetOk(st1.c, i, n) && HeldAt(st0.c, st1.c, i) {
      assert TargetOk(st0.c, i, n) && JumpAt(st0.c, i);
    }
    forall p | p in st0.c.pend - Elems(T) - {pc} ensures KeptJump(st0.c.code, st1.c.code, p) {
      assert JumpAt(st0.c, p) && JumpAt(st0.c, p - 1);
    }
    forall p | p in F ensures 0 <= p < n && st1.c.code[p] == st0.c.code[p] {
      assert p in Elems(F) && JumpAt(st0.c, p);
    }
    ListFrame(st0.c.code, st1.c.code, e.f, F);
    assert JumpAt(st0.c, pc) && JumpAt(st1.c, pc) && st0.c.code[pc].Jmp?;
    forall p | p in T + F ensures SameControl(st0.c.code, st1.c.code, p) {
      assert p in Elems(T) + Elems(F) && JumpAt(st0.c, p) && JumpAt(st0.c, p - 1);
    }
    JoinRun(st0, e, st1, pc);
  }

  ghost predicate Delivers(st0: St, e: ExpDesc, st1: St, reg: int) {
    forall x :: DeliverAt(x, st0, e, st1, reg)
  }

  lemma DeliverTrans(st0: St, e0: ExpDesc, st1: St, e1: ExpDesc, st2: St, reg: int)
    requires SameValue(st0, e0, st1, e1) && Delivers(st1, e1, st2, reg) && Extends(st0, st1) && Extends(st1, st2)
    requires |Core(st1.c, e1).code| == |Core(st0.c, e0).code| <= |st0.c.code|
    ensures Delivers(st0, e0, st2, reg)
  {
    forall x ensures DeliverAt(x, st0, e0, st2, reg) {
      assert SameValueAt(x, st0, e0, st1, e1) && DeliverAt(x, st1, e1, st2, reg);
      if PreAt(x, st0, st2.k) && x.s <= |Core(st0.c, e0).code| {
        PreMono(x, st0, st1, st2.k);
      }
    }
  }

  /** Adding constants first does not matter. */
  lemma DeliversAfter(st0: St, st1: St, e: ExpDesc, st2: St, reg: int)
    requires st1.c == st0.c && st1.lasttarget == st0.lasttarget && st1.nactvar == st0.nactvar && Extends(st1, st2)
    requires Delivers(st1, e, st2, reg)
    ensures Delivers(st0, e, st2, reg)
  {
    forall x ensures DeliverAt(x, st0, e, st2, reg) {
      assert DeliverAt(x, st1, e, st2, reg);
    }
  }

  lemma NilDelivers(st0: St, e: ExpDesc, st1: St, reg: int)
    requires Jumps(st0.c) && Niled(st0, st1, reg, reg) && 0 <= reg < 256 && e.k == VNil
    ensures Delivers(st0, e, st1, reg)
  {
    forall x ensures DeliverAt(x, st0, e, st1, reg) {
      if PreAt(x, st0, st1.k) && x.s <= |st0.c.code| && Out(x, st0.c) != Stuck {
        NiledRun(x, st0, st1, reg, reg);
      }
    }
  }

  lemma SetDelivers(st0: St, e: ExpDesc, st1: St, pc: int, reg: int, T: seq<int>, F: seq<int>)
    requires Jumps(st0.c) && LastOk(st0.c, st0.lasttarget) && EndsWithin(st0.c, |st0.c.code|)
    requires EdOk(st0, e, T, F)
    requires e.k == VReloc(pc) && 0 <= reg < 256
    requires st1 == st0.(c := Code(st0.c.code[pc := WithA(st0.c.code[pc], reg)], st0.c.pend, st0.c.here))
    ensures Jumps(st1.c) && LastOk(st1.c, st1.lasttarget) && EndsWithin(st1.c, |st1.c.code|)
    ensures Frame(st0.c.code, st1.c.code, st0.c.pend)
    ensures Delivers(st0, e, st1, reg)
  {
    var n := |st0.c.code|;
    var d := Core(st0.c, e);
    forall p ensures JumpAt(st1.c, p) && JumpAt(d, p) {
      assert JumpAt(st0.c, p);
    }
    forall i ensures TargetOk(st1.c, i, n) {
      assert TargetOk(st0.c, i, n);
    }
    forall p | p in st0.c.pend ensures KeptJump(st0.c.code, st1.c.code, p) {
      assert JumpAt(st0.c, p) && JumpAt(st0.c, p - 1);
    }
    forall x ensures DeliverAt(x, st0, e, st1, reg) {
      if Out(x, d) != Stuck {
        AppendRun(x.env, d, st1.c, x.s, x.R0);
      }
    }
  }

  ghost predicate SameValue(st0: St, e0: ExpDesc, st1: St, e1: ExpDesc) {
    forall x :: SameValueAt(x, st0, e0, st1, e1)
  }

  lemma GlobalSame(st0: St, st1: St, e: ExpDesc, info: int)
    requires Jumps(st0.c) && Coded(st0.c, st1.c, [GetGlobal(0, info)], {}) && e.k == VGlobal(info)
    ensures SameValue(st0, e, st1, e.(k := VReloc(|st0.c.code|)))
  {
    var pc := |st0.c.code|;
    assert st1.c.code[pc] == st1.c.code[pc..][0] && st1.c.pend == st0.c.pend;
    forall x ensures SameValueAt(x, st0, e, st1, e.(k := VReloc(pc))) {
      if Out(x, st0.c) != Stuck {
        DischargeRun(x.env, st0.c, Code(st1.c.code[..pc], st0.c.pend, {}), x.s, x.R0);
      }
    }
  }

  function WithA(i: Instr, reg: int): Instr {
    match i
    case Move(_, b) => Move(reg, b)
    case LoadK(_, bx) => LoadK(reg, bx)
    case GetGlobal(_, bx) => GetGlobal(reg, bx)
    case Arith(op, _, b, c) => Arith(op, reg, b, c)
    case Not(_, b) => Not(reg, b)
    case _ => i
  }

  /** The instruction that loads the value of a constant or register descriptor. */
  ghost predicate Loads(st: St, e: ExpDesc, i: Instr, reg: int) {
    match e.k
    case VTrue => i == LoadBool(reg, 1, 0)
    case VFalse => i == LoadBool(reg, 0, 0)
    case VK(info) => i == LoadK(reg, info)
    case VKNum(n) => i.LoadK? && i.a == reg && 0 <= i.bx < |st.k| && st.k[i.bx] == n
    case VNonReloc(info) => i == Move(reg, info)
    case _ => false
  }

  lemma LoadDelivers(st0: St, e: ExpDesc, st1: St, i: Instr, reg: int)
    requires Jumps(st0.c) && Coded(st0.c, st1.c, [i], {}) && st1.k == st0.k && 0 <= reg < 256 && Loads(st0, e, i, reg)
    ensures Delivers(st0, e, st1, reg)
  {
    forall x ensures DeliverAt(x, st0, e, st1, reg) {
      if Out(x, st0.c) != Stuck && Consistent(x.env, st1.k) {
        CodedRun(x.env, st0.c, st1.c, [i], {}, x.s, x.R0);
        assert st1.c.code[|st0.c.code|] == st1.c.code[|st0.c.code|..][0];
      }
    }
  }

  // ---------------------------------------------------------------------------
  // What coding does to runs
  // ---------------------------------------------------------------------------

  ghost predicate Discharged(c0: Code, c1: Code) {
    && c1.pend == c0.pend && c1.here == {}
    && Patched(c0.code, c1.code, c0.here, |c0.code|, NO_REG, |c0.code|)
  }

  /** Code c1 is c0 with its waiting jumps patched and the instructions X added; P are new pending jumps. */
  ghost predicate Coded(c0: Code, c1: Code, X: seq<Instr>, P: set<int>) {
    && c1.pend == c0.pend + P && c1.here == {}
    && |c1.code| == |c0.code| + |X| && c1.code[|c0.code|..] == X
    && (forall p :: p in P ==> p >= |c0.code|)
    && Discharged(c0, Code(c1.code[..|c0.code|], c0.pend, {}))
  }

  lemma DischargeKeeps(c0: Code, c1: Code, lasttarget: int)
    requires Jumps(c0) && EndsWithin(c0, |c0.code|) && LastOk(c0, lasttarget) && Discharged(c0, c1)
    requires c0.here != {} ==> lasttarget == |c0.code|
    ensures Jumps(c1) && EndsWithin(c1, |c1.code|) && LastOk(c1, lasttarget)
    ensures Frame(c0.code, c1.code, c0.pend)
  {
    forall p ensures JumpAt(c1, p) {
      assert JumpAt(c0, p);
      if 0 <= p < |c0.code| { assert c1.code[p] == PatchedAt(c0.code, c0.here, |c0.code|, NO_REG, |c0.code|, p); }
    }
    forall i ensures TargetOk(c1, i, |c1.code|) {
      assert TargetOk(c0, i, |c0.code|) && JumpAt(c0, i) && JumpAt(c0, i + 1);
      if 0 <= i < |c0.code| { assert c1.code[i] == PatchedAt(c0.code, c0.here, |c0.code|, NO_REG, |c0.code|, i); }
    }
    forall p | p in c0.pend ensures KeptJump(c0.code, c1.code, p) {
      assert JumpAt(c0, p) && JumpAt(c0, p - 1);
      assert c1.code[p] == PatchedAt(c0.code, c0.here, |c0.code|, NO_REG, |c0.code|, p);
      if p > 0 { assert c1.code[p - 1] == PatchedAt(c0.code, c0.here, |c0.code|, NO_REG, |c0.code|, p - 1); }
    }
    if c0.here == {} {
      assert c1.code == c0.code by {
        forall i | 0 <= i < |c0.code| ensures c1.code[i] == c0.code[i] {
          assert c1.code[i] == PatchedAt(c0.code, c0.here, |c0.code|, NO_REG, |c0.code|, i);
        }
      }
    } else if |c0.code| > 0 {
      var n := |c0.code| - 1;
      assert c1.code[n] == PatchedAt(c0.code, c0.here, |c0.code|, NO_REG, |c0.code|, n);
    }
  }

  predicate EndsInSkip(code: seq<Instr>) {
    |code| > 0 && code[|code| - 1].LoadBool? && code[|code| - 1].c != 0
  }

  lemma NothingPatched(code: seq<Instr>, code': seq<Instr>, vtarget: int, reg: int, dtarget: int)
    requires Patched(code, code', {}, vtarget, reg, dtarget)
    ensures code' == code
  {
    forall i | 0 <= i < |code| ensures code'[i] == code[i] {
      assert code'[i] == PatchedAt(code, {}, vtarget, reg, dtarget, i);
    }
  }

  lemma CodeKeeps(c0: Code, d: Code, c1: Code, i: Instr, lasttarget: int)
    requires Jumps(d) && Discharged(c0, d) && !i.Jmp?
    requires EndsWithin(d, |d.code|) || (EndsInSkip(d.code) && EndsWithin(d, |d.code| - 1) && !i.LoadNil?)
    requires c1 == Code(d.code + [i], d.pend, {})
    requires i.LoadNil? ==> 0 <= i.a <= i.b < LUAI_MAXSTACK
    ensures Jumps(c1) && LastOk(c1, lasttarget) && Coded(c0, c1, [i], {})
    ensures EndsWithin(d, |d.code|) ==> EndsWithin(c1, |c1.code| - 1)
    ensures !IsTest(i) && !(i.LoadBool? && i.c != 0) ==> EndsWithin(c1, |c1.code|)
  {
    assert c1.code[..|c0.code|] == d.code;
    forall p ensures JumpAt(c1, p) {
      assert JumpAt(d, p);
    }
    var n, m, l := |d.code|, |c1.code|, |d.code| - 1;
    if EndsWithin(d, n) {
      forall p ensures TargetOk(c1, p, n) {
        assert TargetOk(d, p, n);
      }
    }
    if !IsTest(i) && !(i.LoadBool? && i.c != 0) {
      forall p ensures TargetOk(c1, p, m) {
        assert EndsWithin(d, n) ==> TargetOk(d, p, n);
        assert EndsWithin(d, l) ==> TargetOk(d, p, l);
      }
    }
  }

  lemma NothingListed(code: seq<Instr>)
    ensures ListOf(code, NO_JUMP, []) && Elems([]) == {}
  {
    var none: seq<int> := [];
    assert forall i :: LinkAt(code, none, i);
  }

  /** A new jump is a list of its own; the waiting list is what it was. */
  lemma OpenJump(code: seq<Instr>, code1: seq<Instr>, head: int, held: seq<int>)
    requires ListOf(code, head, held) && code1 == code + [Jmp(NO_JUMP)]
    ensures ListOf(code1, |code|, [|code|]) && ListOf(code1, head, held) && Elems([|code|]) !! Elems(held)
  {
    ListJumps(code, head, held);
    assert forall i, k :: DistinctAt([|code|], i, k);
    ListFrame(code, code1, head, held);
  }

  lemma JumpKeeps(c0: Code, c1: Code, held: seq<int>, lasttarget: int)
    requires Jumps(c0) && c0.here == Elems(held)
    requires EndsWithin(c0, |c0.code|) ||
             (|c0.code| > 0 && EndsWithin(c0, |c0.code| - 1) && IsTest(c0.code[|c0.code| - 1]))
    requires |c1.code| == |c0.code| + 1 && (forall p :: 0 <= p < |c0.code| ==> c1.code[p] == c0.code[p])
    requires c1.code[|c0.code|].Jmp? && c1.here == {} && c1.pend == c0.pend + Elems([|c0.code|] + held)
    ensures Jumps(c1) && EndsWithin(c1, |c1.code|) && LastOk(c1, lasttarget)
  {
    var n, m, l := |c0.code|, |c0.code| + 1, |c0.code| - 1;
    ElemsAppend([n], held);
    assert Elems([n]) == {n};
    forall p ensures JumpAt(c1, p) {
      assert JumpAt(c0, p);
    }
    forall i ensures TargetOk(c1, i, m) {
      assert EndsWithin(c0, l) ==> TargetOk(c0, i, l);
      assert EndsWithin(c0, n) ==> TargetOk(c0, i, n);
    }
  }

  /** Patching the jumps to here, when the next instruction is coded, does not change where runs go. */
  lemma DischargeRun(env: Env, c0: Code, c1: Code, s: int, R: Regs)
    requires Jumps(c0) && Discharged(c0, c1) && Run(env, c0, s, R) != Stuck
    ensures Run(env, c1, s, R) == Run(env, c0, s, R)
  {
    var n := |c0.code|;
    var open := Code(c0.code, c0.pend + c0.here, {});
    forall p ensures JumpAt(open, p) {
      assert JumpAt(c0, p);
    }
    assert forall i :: HeldAt(open, c0, i) by {
      forall i ensures HeldAt(open, c0, i) { assert JumpAt(c0, i); }
    }
    HoldRun(env, open, c0, s, R);
    forall p | p in c0.here ensures p < Dest(c0.code, p, n, n) {
      assert JumpAt(c0, p);
    }
    assert open.pend - c0.here == c0.pend;
    PatchRun(env, open, c1, c0.here, n, NO_REG, n, s, R);
  }

  lemma CodedRun(env: Env, c0: Code, c1: Code, X: seq<Instr>, P: set<int>, s: int, R: Regs)
    requires Jumps(c0) && Coded(c0, c1, X, P) && Run(env, c0, s, R) != Stuck
    ensures var o := Run(env, c0, s, R);
            Run(env, c1, s, R) == if o.Fall? then Run(env, c1, |c0.code|, o.R) else o
  {
    var n := |c0.code|;
    var d := Code(c1.code[..n], c0.pend, {});
    DischargeRun(env, c0, d, s, R);
    forall p ensures JumpAt(d, p) {
      assert JumpAt(c0, p);
      if 0 <= p < n { assert d.code[p] == PatchedAt(c0.code, c0.here, n, NO_REG, n, p); }
    }
    AppendRun(env, d, c1, s, R);
  }

  /** A jump coded while others wait for the same place: all of them are now in one pending list. */
  lemma JumpedRun(env: Env, c0: Code, c1: Code, s: int, R: Regs)
    requires Jumps(c0) && EndsWithin(c0, |c0.code|) && Run(env, c0, s, R) != Stuck
    requires |c1.code| == |c0.code| + 1 && c1.code[..|c0.code|] == c0.code && c1.code[|c0.code|].Jmp?
    requires c1.here == {} && c1.pend == c0.pend + c0.here + {|c0.code|}
    ensures var o, o' := Run(env, c0, s, R), Run(env, c1, s, R);
            if o.Fall? then o'.Exit? && o'.R == o.R && o'.p in c0.here + {|c0.code|} else o' == o
  {
    var n := |c0.code|;
    var open := Code(c0.code, c0.pend + c0.here, {});
    forall p ensures JumpAt(open, p) {
      assert JumpAt(c0, p);
    }
    assert forall i :: HeldAt(open, c0, i) by {
      forall i ensures HeldAt(open, c0, i) { assert JumpAt(c0, i); }
    }
    HoldRun(env, open, c0, s, R);
    AppendRun(env, open, c1, s, R);
    if n > 0 {
      assert TargetOk(c0, n - 1, n);
      assert c1.code[n - 1] == c0.code[n - 1];
    }
    var o := Run(env, open, s, R);
    if o.Fall? {
      assert Run(env, c1, n, o.R) == Follow(env, c1, n, o.R) == Exit(n, o.R);
    }
  }

  lemma CondJumpRun(env: Env, c0: Code, c1: Code, t: Instr, s: int, R: Regs)
    requires Jumps(c0) && IsTest(t) && Run(env, c0, s, R) != Stuck
    requires Coded(c0, c1, [t, Jmp(NO_JUMP)], {|c0.code| + 1})
    ensures var o := Run(env, c0, s, R);
            Run(env, c1, s, R) ==
              if o.Fall? then
                match TestResult(env, t, o.R)
                case None => Error
                case Some(b) => if b then Exit(|c0.code| + 1, o.R) else Fall(o.R)
              else o
  {
    var n := |c0.code|;
    CodedRun(env, c0, c1, [t, Jmp(NO_JUMP)], {n + 1}, s, R);
    assert c1.code[n] == c1.code[n..][0] && c1.code[n + 1] == c1.code[n..][1];
  }

  lemma CondJumpCoded(c0: Code, c1: Code, c2: Code, t: Instr)
    requires Jumps(c0) && Coded(c0, c1, [t], {}) && c1.here == {} && EndsWithin(c1, |c0.code|)
    requires |c2.code| == |c1.code| + 1 && c2.code[..|c1.code|] == c1.code && c2.code[|c1.code|] == Jmp(NO_JUMP)
    requires c2.here == {} && c2.pend == c1.pend + {|c1.code|}
    ensures Coded(c0, c2, [t, Jmp(NO_JUMP)], {|c1.code|}) && EndsWithin(c2, |c0.code|)
  {
    var n := |c0.code|;
    assert c2.code[..n] == c1.code[..n];
    assert c2.code[n] == c1.code[n] == c1.code[n..][0];
    assert c2.code[n..] == [t, Jmp(NO_JUMP)];
    forall i ensures TargetOk(c2, i, n) {
      assert TargetOk(c1, i, n);
    }
  }

  lemma FrameRefl(c: Code)
    requires Jumps(c)
    ensures Frame(c.code, c.code, c.pend)
  {
    forall p | p in c.pend ensures KeptJump(c.code, c.code, p) {
      assert JumpAt(c, p);
    }
  }

  lemma CodedFrame(c0: Code, c1: Code, X: seq<Instr>, P: set<int>)
    requires Jumps(c0) && Coded(c0, c1, X, P)
    ensures Frame(c0.code, c1.code, c0.pend)
  {
    var n := |c0.code|;
    forall p | p in c0.pend ensures KeptJump(c0.code, c1.code, p) {
      assert JumpAt(c0, p) && JumpAt(c0, p - 1);
      assert c1.code[..n][p] == PatchedAt(c0.code, c0.here, n, NO_REG, n, p);
      if p > 0 { assert c1.code[..n][p - 1] == PatchedAt(c0.code, c0.here, n, NO_REG, n, p - 1); }
    }
  }

  lemma WidenKeeps(c0: Code, c1: Code, to: int)
    requires Jumps(c0) && |c0.code| > 0 && c0.code[|c0.code| - 1].LoadNil? && EndsWithin(c0, |c0.code| - 1)
    requires var n := |c0.code| - 1;
             c1 == Code(c0.code[n := LoadNil(c0.code[n].a, if to > c0.code[n].b then to else c0.code[n].b)], c0.pend, c0.here)
    ensures Jumps(c1) && EndsWithin(c1, |c1.code|) && EndsWithin(c1, |c1.code| - 1) && Frame(c0.code, c1.code, c0.pend)
  {
    var n, m := |c0.code| - 1, |c0.code|;
    forall p ensures JumpAt(c1, p) {
      assert JumpAt(c0, p);
    }
    forall i ensures TargetOk(c1, i, n) && TargetOk(c1, i, m) {
      assert TargetOk(c0, i, n);
    }
    forall p | p in c0.pend ensures KeptJump(c0.code, c1.code, p) {
      assert JumpAt(c0, p);
    }
  }

  lemma ListsKept(st0: St, st1: St, e: ExpDesc, T: seq<int>, F: seq<int>)
    requires ListOf(st0.c.code, e.t, T) && ListOf(st0.c.code, e.f, F) && Elems(T) + Elems(F) <= st0.c.pend
    requires Frame(st0.c.code, st1.c.code, st0.c.pend)
    ensures ListOf(st1.c.code, e.t, T) && ListOf(st1.c.code, e.f, F)
  {
    forall p | p in T || p in F ensures KeptJump(st0.c.code, st1.c.code, p) {
      assert p in Elems(T) + Elems(F);
    }
    ListFrame(st0.c.code, st1.c.code, e.t, T);
    ListFrame(st0.c.code, st1.c.code, e.f, F);
  }

  lemma FrameTrans(code0: seq<Instr>, code1: seq<Instr>, code2: seq<Instr>, P1: set<int>, P2: set<int>, P: set<int>)
    requires Frame(code0, code1, P1) && Frame(code1, code2, P2) && P <= P1 && P <= P2
    ensures Frame(code0, code2, P)
  {
    forall p | p in P ensures KeptJump(code0, code2, p) {
      assert KeptJump(code0, code1, p) && KeptJump(code1, code2, p);
    }
  }

  /** One round of patchlistaux. */
  lemma PatchStep(code: seq<Instr>, before: seq<Instr>, after: seq<Instr>, D: set<int>, p: int,
                  vtarget: int, reg: int, dtarget: int, all: set<int>)
    requires Patched(code, before, D, vtarget, reg, dtarget)
    requires 0 <= p < |code| && p !in D && before[p].Jmp? && p in all
    requires var c := Controlled(before, p);
             after == (if c then before[p - 1 := Retarget(before[p - 1], reg)] else before)
                        [p := Jmp((if c then vtarget else dtarget) - (p + 1))]
    requires D <= all && forall q :: q in all ==> 0 <= q < |code| && code[q].Jmp?
    ensures Patched(code, after, D + {p}, vtarget, reg, dtarget)
  {
    assert before[p] == PatchedAt(code, D, vtarget, reg, dtarget, p);
    assert p > 0 ==> before[p - 1] == PatchedAt(code, D, vtarget, reg, dtarget, p - 1);
    forall i | 0 <= i < |code| ensures after[i] == PatchedAt(code, D + {p}, vtarget, reg, dtarget, i) {
      assert before[i] == PatchedAt(code, D, vtarget, reg, dtarget, i);
    }
  }

  lemma PatchRest(before: seq<Instr>, after: seq<Instr>, p: int, next: int, rest: seq<int>)
    requires 0 <= p < |before| == |after| && ListOf(before, next, rest) && p !in rest
    requires forall i :: 0 <= i < |before| && i != p && !before[i].TestSet? ==> after[i] == before[i]
    ensures ListOf(after, next, rest)
  {
    ListJumps(before, next, rest);
    ListFrame(before, after, next, rest);
  }
}
