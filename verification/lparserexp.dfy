/** Compiling whole expressions (subexpr in lparser.c, luaK_infix and luaK_posfix in lcode.c). */
module LuaSubexpr {
  import opened LuaObject
  import opened Vm
  import opened CodeSemantics
  import opened LuaCode
  import opened LuaExpressions

  type Number = v: Value | v.Integer? || v.Float? witness Integer(0)

  /** The arithmetic of lua_Number, shared by the constant folder and the virtual machine. */
  datatype Numbers = Numbers(op: (ArithOp, Value, Value) -> Number, isZero: Value -> bool, isNaN: Value -> bool)

  ghost predicate SameNumberAt(env: Env, nu: Numbers, op: ArithOp, a: Value, b: Value) {
    (a.Integer? || a.Float?) && (b.Integer? || b.Float?) ==> env.arith(op, a, b) == Some(nu.op(op, a, b))
  }

  ghost predicate SameNumbers(env: Env, nu: Numbers) {
    forall op, a, b :: SameNumberAt(env, nu, op, a, b)
  }

  ghost predicate Seen(x: At, nu: Numbers, st: St, k: seq<Value>) {
    PreAt(x, st, k) && SameNumbers(x.env, nu) && x.s <= |st.c.code|
  }

  lemma SeenLater(x: At, nu: Numbers, st0: St, st1: St, k: seq<Value>)
    requires Extends(st0, st1) && |st1.k| <= |k| && k[..|st1.k|] == st1.k && Seen(x, nu, st0, k)
    ensures Seen(x, nu, st1, k) && Seen(x, nu, st0, st1.k) && Seen(x, nu, st1, st1.k)
  {
    PreMono(x, st0, st1, k);
  }

  // ---------------------------------------------------------------------------
  // What a compiled expression means
  // ---------------------------------------------------------------------------

  /** How running a descriptor ends: with a value, with an error, or as the run before it did. */
  datatype Yield = Got(R: Regs, v: Value) | Failed | Left(o: Outcome)

  ghost function Yields(x: At, st: St, d: ExpDesc, T: seq<int>, F: seq<int>): Yield {
    var o := Out(x, Core(st.c, d));
    if o.Fall? then
      match Rep(x.env, st.c.code, d, o.R)
      case None => Failed
      case Some(v) => Got(o.R, v)
    else if o.Exit? && (o.p in T || o.p in F) then Got(o.R, JumpVal(st.c.code, o.p, o.R, o.p in T))
    else if o == Error then Failed
    else Left(o)
  }

  /** Jumps in T are taken with true values, jumps in F with false ones. */
  ghost predicate JumpsTell(o: Outcome, T: seq<int>, F: seq<int>, v: Value) {
    o.Exit? ==> (o.p in T ==> !IsFalse(v)) && (o.p in F ==> IsFalse(v))
  }

  /** Seen from x, the descriptor yields the value of the expression. */
  ghost predicate CompiledAt(x: At, nu: Numbers, st0: St, e: Expr, st1: St, d: ExpDesc, T: seq<int>, F: seq<int>) {
    var o, o' := Out(x, st0.c), Out(x, Core(st1.c, d));
    Seen(x, nu, st0, st1.k) && o != Stuck ==>
      if o.Fall? then
        var y := Yields(x, st1, d, T, F);
        match Eval(x.env, e, o.R)
        case None => y == Failed
        case Some(v) => y.Got? && y.v == v && Agree(o.R, y.R, st0.freereg) && JumpsTell(o', T, F, v)
      else
        o' == o
  }

  /** The bookkeeping: new jumps only in the lists of the descriptor, earlier ones untouched. */
  ghost predicate Tidy(st0: St, st1: St, d: ExpDesc, T: seq<int>, F: seq<int>) {
    && EdOk(st1, d, T, F) && TrueConstant(st1, d) && LocalReg(d, st1.nactvar)
    && st1.freereg == st0.freereg && Extends(st0, st1) && Frame(st0.c.code, st1.c.code, st0.c.pend)
    && st1.c.pend == st0.c.pend + Elems(T) + Elems(F) + Own(d)
    && st0.c.pend !! Elems(T) + Elems(F) + Own(d)
    && |st0.c.code| <= |Core(st1.c, d).code|
  }

  ghost predicate Compiled(nu: Numbers, st0: St, e: Expr, st1: St, d: ExpDesc, T: seq<int>, F: seq<int>) {
    Tidy(st0, st1, d, T, F) && forall x :: CompiledAt(x, nu, st0, e, st1, d, T, F)
  }

  // ---------------------------------------------------------------------------
  // Constants and variables
  // ---------------------------------------------------------------------------

  ghost predicate Leaf(e: Expr, d: ExpDesc, k: seq<Value>) {
    d.t == NO_JUMP && d.f == NO_JUMP &&
    match e
    case ENil => d.k == VNil
    case ETrue => d.k == VTrue
    case EFalse => d.k == VFalse
    case ENumber(n) => d.k == VKNum(n)
    case EString(s) => d.k.VK? && 0 <= d.k.info < |k| && k[d.k.info] == s
    case ELocal(r) => d.k == VLocal(r)
    case EGlobal(s) => d.k.VGlobal? && 0 <= d.k.info < |k| && k[d.k.info] == s
    case _ => false
  }

  lemma LeafCompiled(nu: Numbers, st0: St, e: Expr, st1: St, d: ExpDesc)
    requires Jumps(st0.c) && Leaf(e, d, st1.k) && 0 <= st0.nactvar <= st0.freereg && WellScoped(e, st0.nactvar)
    requires st1 == st0.(k := st1.k) && |st0.k| <= |st1.k| && st1.k[..|st0.k|] == st0.k
    ensures Compiled(nu, st0, e, st1, d, [], [])
  {
    FrameRefl(st0.c);
    var none: seq<int> := [];
    assert Elems(none) == {};
    assert forall i :: LinkAt(st1.c.code, none, i);
    forall x ensures CompiledAt(x, nu, st0, e, st1, d, none, none) {
      if Seen(x, nu, st0, st1.k) && (d.k.VK? || d.k.VGlobal?) {
        assert x.env.k(d.k.info) == st1.k[d.k.info];
      }
    }
  }

  /** simpleexp and singlevar, for constants, active locals and globals. */
  method SimpleExp(fs: FuncState, nu: Numbers, e: Expr) returns (r: Result<ExpDesc>)
    requires fs.Valid() && WellScoped(e, fs.nactvar)
    requires !e.ENot? && !e.EAnd? && !e.EOr? && !e.ERel? && !e.EArith?
    modifies fs`k, fs`h
    ensures r.Success? ==> fs.Valid() && Compiled(nu, old(fs.S()), e, fs.S(), r.value, [], [])
    ensures r.Failure? ==> fs.AtLimit(r.error)
  {
    ghost var st0 := fs.S();
    var k := VNil;
    match e {
      case ENil => k := VNil;
      case ETrue => k := VTrue;
      case EFalse => k := VFalse;
      case ENumber(n) => k := VKNum(n);
      case EString(s) => var i :- fs.AddK(s); k := VK(i);
      case ELocal(reg) => k := VLocal(reg);
      case EGlobal(s) => var i :- fs.AddK(s); k := VGlobal(i);
    }
    var d := ExpDesc(k, NO_JUMP, NO_JUMP);
    LeafCompiled(nu, st0, e, fs.S(), d);
    r := Success(d);
  }

  // ---------------------------------------------------------------------------
  // not
  // ---------------------------------------------------------------------------

  lemma NotCompiled(nu: Numbers, st0: St, e: Expr, st1: St, d: ExpDesc, T: seq<int>, F: seq<int>, st2: St, d': ExpDesc)
    requires Compiled(nu, st0, e, st1, d, T, F) && Nots(st1, d, st2, d', st0.freereg) && Jumps(st0.c)
    requires Extends(st1, st2) && EdOk(st2, d', F, T) && st2.freereg == st1.freereg && st2.c.pend == st1.c.pend
    requires Own(d') == Own(d) && !d'.k.VK? && LocalReg(d', st1.nactvar)
    requires Frame(st1.c.code, st2.c.code, st1.c.pend - Elems(T) - Elems(F))
    requires |Core(st1.c, d).code| <= |Core(st2.c, d').code|
    requires forall p :: p in T || p in F ==> !Controlled(st2.c.code, p)
    ensures Compiled(nu, st0, ENot(e), st2, d', F, T)
  {
    hide ListOf, Jumps, Out;
    ExtendsTrans(st0, st1, st2);
    FrameTrans(st0.c.code, st1.c.code, st2.c.code, st0.c.pend, st1.c.pend - Elems(T) - Elems(F), st0.c.pend);
    forall x ensures CompiledAt(x, nu, st0, ENot(e), st2, d', F, T) {
      assert CompiledAt(x, nu, st0, e, st1, d, T, F) && NotAt(x, st1, d, st2, d', st0.freereg);
      if Seen(x, nu, st0, st2.k) {
        SeenLater(x, nu, st0, st1, st2.k);
        ExitsArePending(x.env, st0.c, x.s, x.R0);
        Apart(T, F);
      }
    }
  }

  lemma Apart(T: seq<int>, F: seq<int>)
    requires Elems(T) !! Elems(F)
    ensures forall p :: p in T ==> p !in F
  {
    assert forall p :: p in T ==> p in Elems(T);
    assert forall p :: p in F ==> p in Elems(F);
  }

  // ---------------------------------------------------------------------------
  // and, or
  // ---------------------------------------------------------------------------

  /** An expression compiled as a condition: out through L when its truth is `cond`. */
  ghost predicate CondAt(x: At, nu: Numbers, st0: St, e: Expr, st1: St, L: seq<int>, cond: bool) {
    var o, o' := Out(x, st0.c), Out(x, st1.c);
    Seen(x, nu, st0, st1.k) && o != Stuck ==>
      if o.Fall? then
        match Eval(x.env, e, o.R)
        case None => o' == Error
        case Some(v) => Branched(o.R, o', st1.c.code, L, cond, st0.freereg, v)
      else
        o' == o
  }

  ghost predicate Cond(nu: Numbers, st0: St, e: Expr, st1: St, L: seq<int>, cond: bool) {
    && Extends(st0, st1) && st1.freereg == st0.freereg && Frame(st0.c.code, st1.c.code, st0.c.pend)
    && st1.c.pend == st0.c.pend + Elems(L) && Elems(L) !! st0.c.pend
    && forall x :: CondAt(x, nu, st0, e, st1, L, cond)
  }

  lemma CondScope(nu: Numbers, st0: St, e: Expr, st1: St, L: seq<int>, cond: bool)
    requires Cond(nu, st0, e, st1, L, cond)
    ensures st1.nactvar == st0.nactvar
  {
  }

  lemma CondCompiled(nu: Numbers, st0: St, e: Expr, st1: St, d: ExpDesc, T: seq<int>, F: seq<int>, st2: St, L: seq<int>, cond: bool)
    requires Compiled(nu, st0, e, st1, d, T, F)
    requires Goes(st1, d, if cond then F else T, st2, L, cond, st0.freereg)
    requires LeftPending(st1, d, T, F, st2, if cond then T else F, L)
    requires Extends(st1, st2) && st2.freereg == st1.freereg
    ensures Cond(nu, st0, e, st2, L, cond)
  {
    ExtendsTrans(st0, st1, st2);
    var K := if cond then T else F;
    assert st1.c.pend - Elems(T) - Elems(F) - Own(d) == st0.c.pend;
    FrameTrans(st0.c.code, st1.c.code, st2.c.code, st0.c.pend, st0.c.pend, st0.c.pend);
    Apart(T, F);
    forall x ensures CondAt(x, nu, st0, e, st2, L, cond) {
      assert CompiledAt(x, nu, st0, e, st1, d, T, F);
      assert GoAt(x, st1, d, if cond then F else T, st2, L, cond, st0.freereg);
      if Seen(x, nu, st0, st2.k) {
        SeenLater(x, nu, st0, st1, st2.k);
        ExitsArePending(x.env, st0.c, x.s, x.R0);
        assert forall p :: p in T || p in F ==> p in Elems(T) + Elems(F);
        CondFrom(x, nu, st0, e, st1, d, T, F, st2, L, cond);
      }
    }
  }

  lemma CondFrom(x: At, nu: Numbers, st0: St, e: Expr, st1: St, d: ExpDesc, T: seq<int>, F: seq<int>, st2: St, L: seq<int>, cond: bool)
    requires CompiledAt(x, nu, st0, e, st1, d, T, F) && GoAt(x, st1, d, if cond then F else T, st2, L, cond, st0.freereg)
    requires Seen(x, nu, st0, st2.k) && Seen(x, nu, st0, st1.k) && PreAt(x, st1, st2.k) && st1.freereg == st0.freereg
    requires x.s <= |st0.c.code| <= |Core(st1.c, d).code| && (forall p :: p in T ==> p !in F)
    requires Out(x, st0.c).Exit? ==> Out(x, st0.c).p !in T && Out(x, st0.c).p !in F
    requires SameControls(st1.c.code, st2.c.code, if cond then T else F) && forall p :: p in (if cond then T else F) ==> p in L
    ensures CondAt(x, nu, st0, e, st2, L, cond)
  {
    hide Seen, PreAt, Core, Eval;
    var o := Out(x, Core(st1.c, d));
    if o.Exit? && o.p in (if cond then T else F) {
      assert SameControl(st1.c.code, st2.c.code, o.p);
    }
  }

  /** The second operand's list absorbs the jumps of the first. */
  ghost predicate Absorbed(st0: St, d0: ExpDesc, st1: St, d1: ExpDesc, T: seq<int>, F: seq<int>, L: seq<int>) {
    && SameValue(st0, d0, st1, d1) && SameControls(st0.c.code, st1.c.code, T + F + L) && st1.k == st0.k
  }

  lemma LogicalAt(x: At, nu: Numbers, st0: St, e1: Expr, st1: St, L: seq<int>, cond: bool,
                  e2: Expr, st2: St, d2: ExpDesc, T: seq<int>, F: seq<int>, st3: St, d3: ExpDesc, T': seq<int>, F': seq<int>)
    requires 0 <= st0.nactvar <= st0.freereg == st1.freereg && WellScoped(e2, st0.nactvar)
    requires Extends(st0, st1) && Extends(st1, st2) && Seen(x, nu, st0, st3.k) && st3.k == st2.k
    requires CondAt(x, nu, st0, e1, st1, L, cond) && CompiledAt(x, nu, st1, e2, st2, d2, T, F) && SameValueAt(x, st2, d2, st3, d3)
    requires SameControls(st1.c.code, st2.c.code, L) && SameControls(st2.c.code, st3.c.code, T + F + L)
    requires if cond then T' == T + L && F' == F else T' == T && F' == F + L
    requires forall p :: p in T' ==> p !in F'
    ensures CompiledAt(x, nu, st0, if cond then EOr(e1, e2) else EAnd(e1, e2), st3, d3, T', F')
  {
    hide CondAt, CompiledAt, SameValueAt, WellScoped, Seen;
    SeenLater(x, nu, st0, st1, st3.k);
    if Out(x, st1.c).Fall? {
      LogicalOn(x, nu, st0, e1, st1, L, cond, e2, st2, d2, T, F, T', F');
    } else {
      LogicalOut(x, nu, st0, e1, st1, L, cond, e2, st2, d2, T, F, T', F');
    }
    CompiledMove(x, nu, st0, if cond then EOr(e1, e2) else EAnd(e1, e2), st2, d2, st3, d3, T', F');
  }

  /** The value does not change when jumps are threaded into other lists. */
  lemma CompiledMove(x: At, nu: Numbers, st0: St, e: Expr, st2: St, d2: ExpDesc, st3: St, d3: ExpDesc, T: seq<int>, F: seq<int>)
    requires CompiledAt(x, nu, st0, e, st2, d2, T, F) && SameValueAt(x, st2, d2, st3, d3) && st3.k == st2.k
    requires forall p :: p in T || p in F ==> SameControl(st2.c.code, st3.c.code, p)
    ensures CompiledAt(x, nu, st0, e, st3, d3, T, F)
  {
    hide Seen, Eval, Core, Out, Rep;
  }

  /** The first operand lets the second one be evaluated. */
  lemma LogicalOn(x: At, nu: Numbers, st0: St, e1: Expr, st1: St, L: seq<int>, cond: bool,
                  e2: Expr, st2: St, d2: ExpDesc, T: seq<int>, F: seq<int>, T': seq<int>, F': seq<int>)
    requires 0 <= st0.nactvar <= st0.freereg == st1.freereg && WellScoped(e2, st0.nactvar)
    requires Seen(x, nu, st0, st1.k) && Seen(x, nu, st1, st2.k)
    requires CondAt(x, nu, st0, e1, st1, L, cond) && CompiledAt(x, nu, st1, e2, st2, d2, T, F)
    requires if cond then T' == T + L && F' == F else T' == T && F' == F + L
    requires (forall p :: p in T' ==> p !in F') && Out(x, st1.c).Fall?
    ensures CompiledAt(x, nu, st0, if cond then EOr(e1, e2) else EAnd(e1, e2), st2, d2, T', F')
  {
    hide Seen, Core, Out, Rep, WellScoped;
    var o, o1 := Out(x, st0.c), Out(x, st1.c);
    if o.Fall? {
      EvalAgree(x.env, e2, o.R, o1.R, st0.nactvar);
    }
  }

  /** The first operand decides, or the run never gets to it. */
  lemma LogicalOut(x: At, nu: Numbers, st0: St, e1: Expr, st1: St, L: seq<int>, cond: bool,
                   e2: Expr, st2: St, d2: ExpDesc, T: seq<int>, F: seq<int>, T': seq<int>, F': seq<int>)
    requires Seen(x, nu, st0, st1.k) && Seen(x, nu, st1, st2.k)
    requires CondAt(x, nu, st0, e1, st1, L, cond) && CompiledAt(x, nu, st1, e2, st2, d2, T, F)
    requires SameControls(st1.c.code, st2.c.code, L)
    requires if cond then T' == T + L && F' == F else T' == T && F' == F + L
    requires (forall p :: p in T' ==> p !in F') && !Out(x, st1.c).Fall?
    ensures CompiledAt(x, nu, st0, if cond then EOr(e1, e2) else EAnd(e1, e2), st2, d2, T', F')
  {
    hide Seen, Core, Out, Rep;
    var o1 := Out(x, st1.c);
    if o1.Exit? && o1.p in L {
      assert SameControl(st1.c.code, st2.c.code, o1.p);
    }
  }

  lemma LogicalCompiled(nu: Numbers, st0: St, e1: Expr, st1: St, L: seq<int>, cond: bool,
                        e2: Expr, st2: St, d2: ExpDesc, T: seq<int>, F: seq<int>, st3: St, d3: ExpDesc, T': seq<int>, F': seq<int>)
    requires 0 <= st0.nactvar <= st0.freereg && WellScoped(e2, st0.nactvar)
    requires Cond(nu, st0, e1, st1, L, cond) && Compiled(nu, st1, e2, st2, d2, T, F)
    requires Absorbed(st2, d2, st3, d3, T, F, L) && Tidy(st0, st3, d3, T', F')
    requires if cond then T' == T + L && F' == F else T' == T && F' == F + L
    ensures Compiled(nu, st0, if cond then EOr(e1, e2) else EAnd(e1, e2), st3, d3, T', F')
  {
    var e := if cond then EOr(e1, e2) else EAnd(e1, e2);
    Apart(T', F');
    FrameControls(st1.c.code, st2.c.code, st1.c.pend, L);
    forall x ensures CompiledAt(x, nu, st0, e, st3, d3, T', F') {
      assert CondAt(x, nu, st0, e1, st1, L, cond) && CompiledAt(x, nu, st1, e2, st2, d2, T, F) && SameValueAt(x, st2, d2, st3, d3);
      if Seen(x, nu, st0, st3.k) {
        LogicalAt(x, nu, st0, e1, st1, L, cond, e2, st2, d2, T, F, st3, d3, T', F');
      }
    }
  }

  /** luaK_posfix for `and` and `or`: the descriptor of the second operand takes the list of the first. */
  method PosfixLogical(fs: FuncState, cond: bool, l: int, d: ExpDesc, ghost L: seq<int>, ghost T: seq<int>, ghost F: seq<int>)
      returns (r: Result<ExpDesc>)
    requires fs.Valid() && EdOk(fs.S(), d, T, F) && ListOf(fs.code, l, L) && Elems(L) <= fs.pend
    requires Elems(L) !! Elems(T) + Elems(F) + Own(d) && TrueConstant(fs.S(), d) && LocalReg(d, fs.nactvar)
    modifies fs`code, fs`jpc, fs`jlist
    ensures r.Success? ==> fs.Valid() && AbsorbedOk(old(fs.S()), d, fs.S(), r.value, cond, T, F, L)
    ensures r.Failure? ==> fs.AtLimit(r.error)
  {
    hide SameValue, AbsorbedOk, Readied;
    ghost var st0 := fs.S();
    var e :- fs.LuaKDischargeVars(d, T, F);
    ghost var st1 := fs.S();
    KeptElsewhere(st0.c.code, fs.code, l, L, fs.pend);
    Readies(st0, d, st1, e, T, F, L);
    if cond {
      r := TakeTrue(fs, l, e, d, st0, L, T, F);
    } else {
      r := TakeFalse(fs, l, e, d, st0, L, T, F);
    }
  }

  /** The second operand without variables, ready to take a list. */
  ghost predicate Readied(st0: St, d: ExpDesc, st1: St, e: ExpDesc, T: seq<int>, F: seq<int>, L: seq<int>) {
    && Jumps(st1.c) && EdOk(st1, e, T, F) && SameValue(st0, d, st1, e) && st1.k == st0.k
    && Extends(st0, st1) && st1.freereg == st0.freereg && Own(e) == Own(d)
    && Frame(st0.c.code, st1.c.code, st0.c.pend) && st1.c.pend == st0.c.pend
    && Elems(L) <= st0.c.pend && Elems(L) !! Elems(T) + Elems(F) + Own(e)
    && |Core(st1.c, e).code| == |Core(st0.c, d).code| && TrueConstant(st1, e) && LocalReg(e, st1.nactvar)
  }

  lemma Readies(st0: St, d: ExpDesc, st1: St, e: ExpDesc, T: seq<int>, F: seq<int>, L: seq<int>)
    requires Jumps(st1.c) && EdOk(st1, e, T, F) && SameValue(st0, d, st1, e) && st1.k == st0.k
    requires Extends(st0, st1) && st1.freereg == st0.freereg && Own(e) == Own(d)
    requires Frame(st0.c.code, st1.c.code, st0.c.pend) && st1.c.pend == st0.c.pend
    requires Elems(L) <= st0.c.pend && Elems(L) !! Elems(T) + Elems(F) + Own(d)
    requires |Core(st1.c, e).code| == |Core(st0.c, d).code| && TrueConstant(st1, e) && LocalReg(e, st1.nactvar)
    ensures Readied(st0, d, st1, e, T, F, L)
  {
  }

  method TakeTrue(fs: FuncState, l: int, e: ExpDesc, ghost d: ExpDesc, ghost st0: St, ghost L: seq<int>, ghost T: seq<int>, ghost F: seq<int>)
      returns (r: Result<ExpDesc>)
    requires fs.Valid() && Readied(st0, d, fs.S(), e, T, F, L) && ListOf(fs.code, l, L)
    modifies fs`code, fs`jpc, fs`jlist
    ensures r.Success? ==> fs.Valid() && AbsorbedOk(st0, d, fs.S(), r.value, true, T, F, L)
    ensures r.Failure? ==> fs.AtLimit(r.error)
  {
    hide SameValue, AbsorbedOk;
    ghost var st1 := fs.S();
    var t :- Splice(fs, e.t, l, T, L);
    KeptElsewhere(st1.c.code, fs.code, e.f, F, fs.pend - Elems(T));
    AbsorbKeeps(st0, d, st1, e, fs.S(), e.(t := t), true, T, F, T, L, T + L, F);
    r := Success(e.(t := t));
  }

  method TakeFalse(fs: FuncState, l: int, e: ExpDesc, ghost d: ExpDesc, ghost st0: St, ghost L: seq<int>, ghost T: seq<int>, ghost F: seq<int>)
      returns (r: Result<ExpDesc>)
    requires fs.Valid() && Readied(st0, d, fs.S(), e, T, F, L) && ListOf(fs.code, l, L)
    modifies fs`code, fs`jpc, fs`jlist
    ensures r.Success? ==> fs.Valid() && AbsorbedOk(st0, d, fs.S(), r.value, false, T, F, L)
    ensures r.Failure? ==> fs.AtLimit(r.error)
  {
    hide SameValue, AbsorbedOk;
    ghost var st1 := fs.S();
    var f :- Splice(fs, e.f, l, F, L);
    KeptElsewhere(st1.c.code, fs.code, e.t, T, fs.pend - Elems(F));
    AbsorbKeeps(st0, d, st1, e, fs.S(), e.(f := f), false, T, F, F, L, T, F + L);
    r := Success(e.(f := f));
  }

  ghost predicate AbsorbedOk(st0: St, d: ExpDesc, st1: St, d1: ExpDesc, cond: bool, T: seq<int>, F: seq<int>, L: seq<int>) {
    && EdOk(st1, d1, if cond then T + L else T, if cond then F else F + L)
    && TrueConstant(st1, d1) && LocalReg(d1, st1.nactvar) && Own(d1) == Own(d)
    && st1.c.pend == st0.c.pend && Extends(st0, st1) && st1.freereg == st0.freereg
    && |Core(st1.c, d1).code| == |Core(st0.c, d).code|
    && Frame(st0.c.code, st1.c.code, st0.c.pend - Elems(T) - Elems(F))
    && Absorbed(st0, d, st1, d1, T, F, L)
  }

  lemma AbsorbKeeps(st0: St, d: ExpDesc, st1: St, e: ExpDesc, st2: St, e': ExpDesc, cond: bool,
                    T: seq<int>, F: seq<int>, K: seq<int>, L: seq<int>, T': seq<int>, F': seq<int>)
    requires Jumps(st1.c) && Jumps(st2.c) && EdOk(st1, e, T, F) && SameValue(st0, d, st1, e) && st1.k == st0.k && st2 == st1.(c := st2.c)
    requires Extends(st0, st1) && Extends(st1, st2) && st1.freereg == st0.freereg && Own(e) == Own(d)
    requires Frame(st0.c.code, st1.c.code, st0.c.pend) && st1.c.pend == st0.c.pend && st2.c.pend == st0.c.pend && st2.c.here == st1.c.here
    requires Held(st1.c, st2.c) && (forall p :: p in st0.c.pend ==> SameControl(st1.c.code, st2.c.code, p))
    requires Frame(st1.c.code, st2.c.code, st0.c.pend - Elems(K)) && (K == T || K == F)
    requires Elems(L) <= st0.c.pend && Elems(L) !! Elems(T) + Elems(F) + Own(e)
    requires e'.k == e.k && ListOf(st2.c.code, e'.t, T') && ListOf(st2.c.code, e'.f, F')
    requires if cond then T' == T + L && F' == F else T' == T && F' == F + L
    requires |Core(st1.c, e).code| == |Core(st0.c, d).code| && TrueConstant(st1, e) && LocalReg(e, st1.nactvar)
    ensures AbsorbedOk(st0, d, st2, e', cond, T, F, L)
  {
    var rest := st0.c.pend - Elems(T) - Elems(F);
    ExtendsTrans(st0, st1, st2);
    FrameTrans(st0.c.code, st1.c.code, st2.c.code, st0.c.pend, st0.c.pend - Elems(K), rest);
    AbsorbDescriptor(st1, e, st2, e', cond, T, F, K, L, T', F');
    AbsorbValue(st0, d, st1, e, st2, e', T, F, L);
  }

  lemma AbsorbDescriptor(st1: St, e: ExpDesc, st2: St, e': ExpDesc, cond: bool,
                         T: seq<int>, F: seq<int>, K: seq<int>, L: seq<int>, T': seq<int>, F': seq<int>)
    requires Jumps(st1.c) && Jumps(st2.c) && EdOk(st1, e, T, F) && st2 == st1.(c := st2.c)
    requires st2.c.pend == st1.c.pend && st2.c.here == st1.c.here
    requires Held(st1.c, st2.c) && Frame(st1.c.code, st2.c.code, st1.c.pend - Elems(K)) && (K == T || K == F)
    requires Elems(L) <= st1.c.pend && Elems(L) !! Elems(T) + Elems(F) + Own(e)
    requires e'.k == e.k && ListOf(st2.c.code, e'.t, T') && ListOf(st2.c.code, e'.f, F')
    requires if cond then T' == T + L && F' == F else T' == T && F' == F + L
    ensures EdOk(st2, e', T', F')
  {
    ElemsAppend(T, L);
    ElemsAppend(F, L);
    if e.k.VJmp? {
      assert e.k.info in Own(e);
      assert e.k.info !in Elems(K);
      assert KeptJump(st1.c.code, st2.c.code, e.k.info);
      assert forall p :: p in L ==> p in Elems(L);
    }
    HeldDescriptor(st1, st2, e, T, F, e', T', F');
  }

  lemma AbsorbValue(st0: St, d: ExpDesc, st1: St, e: ExpDesc, st2: St, e': ExpDesc, T: seq<int>, F: seq<int>, L: seq<int>)
    requires Jumps(st1.c) && Jumps(st2.c) && EdOk(st1, e, T, F) && SameValue(st0, d, st1, e) && st1.k == st0.k && st2 == st1.(c := st2.c)
    requires Frame(st0.c.code, st1.c.code, st0.c.pend) && st1.c.pend == st0.c.pend && st2.c.here == st1.c.here && Held(st1.c, st2.c)
    requires forall p :: p in st0.c.pend ==> SameControl(st1.c.code, st2.c.code, p)
    requires Elems(L) <= st0.c.pend && e'.k == e.k
    ensures Absorbed(st0, d, st2, e', T, F, L) && |Core(st2.c, e').code| == |Core(st1.c, e).code|
  {
    HeldSame(st1, st2, e, T, F);
    ElemsAppend(T, F);
    ElemsAppend(T + F, L);
    FrameControls(st0.c.code, st1.c.code, st0.c.pend, T + F + L);
    forall p | p in T + F + L ensures SameControl(st0.c.code, st2.c.code, p) {
      assert p in Elems(T + F + L) && SameControl(st0.c.code, st1.c.code, p);
    }
    forall x ensures SameValueAt(x, st0, d, st2, e') {
      assert SameValueAt(x, st0, d, st1, e) && SameValueAt(x, st1, e, st2, e);
    }
  }

  // ---------------------------------------------------------------------------
  // Operands
  // ---------------------------------------------------------------------------

  /** The first operand waits in a register, in the constant table, or as a number still to be folded. */
  ghost predicate KeptAt(x: At, nu: Numbers, st0: St, e: Expr, st1: St, d: ExpDesc) {
    var o, o' := Out(x, st0.c), Out(x, st1.c);
    Seen(x, nu, st0, st1.k) && o != Stuck ==>
      if o.Fall? then
        match Eval(x.env, e, o.R)
        case None => o' == Error
        case Some(v) => o'.Fall? && Agree(o.R, o'.R, st0.freereg) && Rep(x.env, st1.c.code, d, o'.R) == Some(v)
      else
        o' == o
  }

  ghost predicate Passed(st0: St, st1: St) {
    Extends(st0, st1) && Frame(st0.c.code, st1.c.code, st0.c.pend) && st1.c.pend == st0.c.pend
  }

  lemma PassedTrans(st0: St, st1: St, st2: St)
    requires Passed(st0, st1) && Passed(st1, st2)
    ensures Passed(st0, st2)
  {
    ExtendsTrans(st0, st1, st2);
    FrameTrans(st0.c.code, st1.c.code, st2.c.code, st0.c.pend, st0.c.pend, st0.c.pend);
  }

  /** The register an operand occupies, if it is a temporary, is the next one. */
  ghost predicate TempAt(st0: St, st1: St, d: ExpDesc) {
    if d.k.VNonReloc? && d.k.info >= st0.nactvar
    then d.k.info == st0.freereg && st1.freereg == st0.freereg + 1
    else st1.freereg == st0.freereg
  }

  ghost predicate Kept(nu: Numbers, st0: St, e: Expr, st1: St, d: ExpDesc) {
    && Passed(st0, st1) && EdOk(st1, d, [], []) && (IsOperand(d) || (d.k.VKNum? && !HasJumps(d))) && TempAt(st0, st1, d)
    && forall x :: KeptAt(x, nu, st0, e, st1, d)
  }

  lemma NumeralKept(nu: Numbers, st0: St, e: Expr, st1: St, d: ExpDesc, T: seq<int>, F: seq<int>)
    requires Compiled(nu, st0, e, st1, d, T, F) && d.k.VKNum? && !HasJumps(d)
    ensures Kept(nu, st0, e, st1, d) && T == [] && F == []
  {
    NoLists(st1.c.code, d.t, T, F);
    assert Elems([]) == {};
    forall x ensures KeptAt(x, nu, st0, e, st1, d) {
      assert CompiledAt(x, nu, st0, e, st1, d, T, F);
    }
  }

  lemma OperandAgrees(env: Env, R: Regs, R': Regs, opd: int, v: Value, base: int)
    requires SetOperand(env, R, R', opd, v) && 0 <= opd
    requires opd >= base || (opd < 256 && v == Reg(R, opd))
    ensures Agree(R, R', base)
  {
  }

  /** luaK_exp2RK finds a new place for the value, or leaves it in the register it is in. */
  lemma OperandPlace(st: St, d: ExpDesc, T: seq<int>, F: seq<int>, opd: int, free1: int)
    requires EdOk(st, d, T, F) && LocalReg(d, st.nactvar) && OperandReg(d, opd, st.freereg, free1, st.nactvar)
    ensures opd >= BITRK || opd == st.freereg || (T == [] && F == [] && (d.k == VNonReloc(opd) || d.k == VLocal(opd)))
  {
    if !HasJumps(d) {
      NoLists(st.c.code, d.t, T, F);
    }
  }

  lemma OperandKept(nu: Numbers, st0: St, e: Expr, st1: St, d: ExpDesc, T: seq<int>, F: seq<int>, st2: St, opd: int, a: ExpDesc)
    requires Compiled(nu, st0, e, st1, d, T, F) && Operands(st1, d, T, F, st2, opd) && Operand(a, opd, |st2.k|)
    requires OperandReg(d, opd, st1.freereg, st2.freereg, st1.nactvar) && Extends(st1, st2) && st0.nactvar <= st0.freereg < LUAI_MAXSTACK
    requires EdOk(st2, a, [], []) && Frame(st1.c.code, st2.c.code, st2.c.pend)
    requires st2.c.pend == st1.c.pend - Elems(T) - Elems(F) - Own(d)
    ensures Kept(nu, st0, e, st2, a)
  {
    ExtendsTrans(st0, st1, st2);
    assert st2.c.pend == st0.c.pend;
    FrameTrans(st0.c.code, st1.c.code, st2.c.code, st0.c.pend, st0.c.pend, st0.c.pend);
    OperandPlace(st1, d, T, F, opd, st2.freereg);
    Apart(T, F);
    forall x ensures KeptAt(x, nu, st0, e, st2, a) {
      assert CompiledAt(x, nu, st0, e, st1, d, T, F) && OperandAt(x, st1, d, T, F, st2, opd);
      OperandKeptAt(x, nu, st0, e, st1, d, T, F, st2, opd, a);
    }
  }

  lemma OperandKeptAt(x: At, nu: Numbers, st0: St, e: Expr, st1: St, d: ExpDesc, T: seq<int>, F: seq<int>, st2: St,
                      opd: int, a: ExpDesc)
    requires CompiledAt(x, nu, st0, e, st1, d, T, F) && OperandAt(x, st1, d, T, F, st2, opd)
    requires Compiled(nu, st0, e, st1, d, T, F) && Operands(st1, d, T, F, st2, opd) && Operand(a, opd, |st2.k|)
    requires OperandReg(d, opd, st1.freereg, st2.freereg, st1.nactvar) && Extends(st1, st2) && st0.nactvar <= st0.freereg < LUAI_MAXSTACK
    requires EdOk(st2, a, [], []) && st2.c.pend == st0.c.pend
    requires opd >= BITRK || opd == st1.freereg || (T == [] && F == [] && (d.k == VNonReloc(opd) || d.k == VLocal(opd)))
    ensures KeptAt(x, nu, st0, e, st2, a)
  {
    if Seen(x, nu, st0, st2.k) {
      SeenLater(x, nu, st0, st1, st2.k);
      ExitsArePending(x.env, st0.c, x.s, x.R0);
      assert forall p :: p in T || p in F ==> p in Elems(T) + Elems(F);
      KeptFrom(x, nu, st0, e, st1, d, T, F, st2, opd, a);
    }
  }

  lemma KeptFrom(x: At, nu: Numbers, st0: St, e: Expr, st1: St, d: ExpDesc, T: seq<int>, F: seq<int>, st2: St, opd: int, a: ExpDesc)
    requires CompiledAt(x, nu, st0, e, st1, d, T, F) && OperandAt(x, st1, d, T, F, st2, opd) && Operand(a, opd, |st2.k|)
    requires Seen(x, nu, st0, st2.k) && Seen(x, nu, st0, st1.k) && Seen(x, nu, st1, st2.k) && st0.freereg == st1.freereg < LUAI_MAXSTACK
    requires x.s <= |Core(st1.c, d).code| && (Out(x, st0.c).Exit? ==> Out(x, st0.c).p !in T && Out(x, st0.c).p !in F)
    requires 0 <= opd && (opd >= BITRK || opd == st1.freereg || (T == [] && F == [] && (d.k == VNonReloc(opd) || d.k == VLocal(opd))))
    ensures KeptAt(x, nu, st0, e, st2, a)
  {
    hide Core, Eval;
    var y, o' := Yields(x, st1, d, T, F), Out(x, st2.c);
    if Out(x, st0.c).Fall? && y.Got? {
      OperandAgrees(x.env, y.R, o'.R, opd, y.v, st0.freereg);
    }
  }

  /** Both operands are there. */
  ghost predicate BothAt(x: At, nu: Numbers, st0: St, e1: Expr, e2: Expr, st1: St, d1: ExpDesc, opd: int) {
    var o, o' := Out(x, st0.c), Out(x, st1.c);
    Seen(x, nu, st0, st1.k) && o != Stuck ==>
      if o.Fall? then
        match Eval(x.env, e1, o.R)
        case None => o' == Error
        case Some(v1) =>
          match Eval(x.env, e2, o.R)
          case None => o' == Error
          case Some(v2) =>
            && o'.Fall? && Agree(o.R, o'.R, st0.freereg)
            && Rep(x.env, st1.c.code, d1, o'.R) == Some(v1) && RK(x.env, o'.R, opd) == v2
      else
        o' == o
  }

  ghost predicate Both(nu: Numbers, st0: St, e1: Expr, e2: Expr, st1: St, d1: ExpDesc, opd: int) {
    forall x :: BothAt(x, nu, st0, e1, e2, st1, d1, opd)
  }

  lemma KeptStays(env: Env, code: seq<Instr>, code': seq<Instr>, d: ExpDesc, R: Regs, R': Regs, n: int)
    requires d.k.VK? || d.k.VKNum? || (d.k.VNonReloc? && 0 <= d.k.info < n) || (d.k.VNonReloc? && d.k.info >= 256)
    requires Agree(R, R', n)
    ensures Rep(env, code', d, R') == Rep(env, code, d, R)
  {
  }

  lemma SecondKept(nu: Numbers, st0: St, e1: Expr, st1: St, d1: ExpDesc, e2: Expr, st3: St, a: ExpDesc, opd: int)
    requires Kept(nu, st0, e1, st1, d1) && Kept(nu, st1, e2, st3, a) && Operand(a, opd, |st3.k|)
    requires 0 <= st0.nactvar <= st0.freereg && WellScoped(e2, st0.nactvar)
    ensures Both(nu, st0, e1, e2, st3, d1, opd) && Passed(st0, st3)
  {
    PassedTrans(st0, st1, st3);
    forall x ensures BothAt(x, nu, st0, e1, e2, st3, d1, opd) {
      assert KeptAt(x, nu, st0, e1, st1, d1) && KeptAt(x, nu, st1, e2, st3, a);
      if Seen(x, nu, st0, st3.k) {
        SeenLater(x, nu, st0, st1, st3.k);
        SecondKeptAt(x, nu, st0, e1, st1, d1, e2, st3, a, opd);
      }
    }
  }

  lemma AgreeThrough(R0: Regs, R1: Regs, R2: Regs, n: int, n1: int, n2: int)
    requires Agree(R0, R1, n1) && (R2 == R1 || Agree(R1, R2, n2)) && n <= n1 && n <= n2
    ensures Agree(R0, R2, n)
  {
  }

  lemma OperandRep(env: Env, code: seq<Instr>, R: Regs, a: ExpDesc, opd: int, nk: int)
    requires Operand(a, opd, nk)
    ensures Rep(env, code, a, R) == Some(RK(env, R, opd))
  {
  }

  lemma SecondKeptAt(x: At, nu: Numbers, st0: St, e1: Expr, st1: St, d1: ExpDesc, e2: Expr, st3: St, a: ExpDesc, opd: int)
    requires KeptAt(x, nu, st0, e1, st1, d1) && KeptAt(x, nu, st1, e2, st3, a) && Operand(a, opd, |st3.k|)
    requires 0 <= st0.nactvar <= st0.freereg <= st1.freereg && WellScoped(e2, st0.nactvar)
    requires Seen(x, nu, st0, st3.k) && Seen(x, nu, st1, st3.k) && Seen(x, nu, st0, st1.k)
    requires d1.k.VK? || d1.k.VKNum? || (d1.k.VNonReloc? && (0 <= d1.k.info < st1.freereg || d1.k.info >= 256))
    ensures BothAt(x, nu, st0, e1, e2, st3, d1, opd)
  {
    hide WellScoped, Eval, Seen, Out, Rep, RK, Operand, Agree;
    var o, o1, o3 := Out(x, st0.c), Out(x, st1.c), Out(x, st3.c);
    if o.Fall? && o1.Fall? && Agree(o.R, o1.R, st0.freereg) {
      AgreeThrough(o.R, o1.R, o1.R, st0.nactvar, st0.freereg, st0.freereg);
      EvalAgree(x.env, e2, o.R, o1.R, st0.nactvar);
      if o3.Fall? && Agree(o1.R, o3.R, st1.freereg) {
        AgreeThrough(o.R, o1.R, o3.R, st0.freereg, st0.freereg, st1.freereg);
        OperandRep(x.env, st3.c.code, o3.R, a, opd, |st3.k|);
        KeptStays(x.env, st1.c.code, st3.c.code, d1, o1.R, o3.R, st1.freereg);
      }
    }
  }

  /** Both operands are encoded. */
  ghost predicate EncodedAt(x: At, nu: Numbers, st0: St, e1: Expr, e2: Expr, st1: St, o1: int, o2: int) {
    var o, o' := Out(x, st0.c), Out(x, st1.c);
    Seen(x, nu, st0, st1.k) && o != Stuck ==>
      if o.Fall? then
        match Eval(x.env, e1, o.R)
        case None => o' == Error
        case Some(v1) =>
          match Eval(x.env, e2, o.R)
          case None => o' == Error
          case Some(v2) =>
            && o'.Fall? && Agree(o.R, o'.R, st0.freereg)
            && RK(x.env, o'.R, o1) == v1 && RK(x.env, o'.R, o2) == v2
      else
        o' == o
  }

  ghost predicate Encoded(nu: Numbers, st0: St, e1: Expr, e2: Expr, st1: St, o1: int, o2: int) {
    forall x :: EncodedAt(x, nu, st0, e1, e2, st1, o1, o2)
  }

  /** Encoding the first operand after the second does not disturb the second. */
  lemma FirstEncoded(nu: Numbers, st0: St, e1: Expr, e2: Expr, st1: St, d1: ExpDesc, opd2: int, st2: St, opd1: int)
    requires Both(nu, st0, e1, e2, st1, d1, opd2) && Operands(st1, d1, [], [], st2, opd1) && Extends(st0, st1) && Extends(st1, st2)
    requires d1.k.VK? || d1.k.VKNum? || (d1.k.VNonReloc? && 0 <= d1.k.info < 256)
    requires 0 <= opd1 && (opd1 >= BITRK || (opd1 >= st0.freereg && opd1 != opd2) || d1.k == VNonReloc(opd1))
    ensures Encoded(nu, st0, e1, e2, st2, opd1, opd2)
  {
    forall x ensures EncodedAt(x, nu, st0, e1, e2, st2, opd1, opd2) {
      assert BothAt(x, nu, st0, e1, e2, st1, d1, opd2) && OperandAt(x, st1, d1, [], [], st2, opd1);
      if Seen(x, nu, st0, st2.k) {
        SeenLater(x, nu, st0, st1, st2.k);
      }
    }
  }

  // ---------------------------------------------------------------------------
  // Arithmetic and comparisons
  // ---------------------------------------------------------------------------

  lemma ArithCompiled(nu: Numbers, st0: St, op: ArithOp, e1: Expr, e2: Expr, st1: St, o1: int, o2: int, st2: St, st3: St, d: ExpDesc)
    requires Encoded(nu, st0, e1, e2, st1, o1, o2) && Jumps(st1.c) && st2 == st1.(freereg := st0.freereg)
    requires Passed(st0, st1) && Passed(st2, st3) && st3.freereg == st2.freereg && st3.k == st2.k
    requires Coded(st2.c, st3.c, [Arith(op, 0, o1, o2)], {}) && d == ExpDesc(VReloc(|st2.c.code|), NO_JUMP, NO_JUMP)
    requires EdOk(st3, d, [], [])
    ensures Compiled(nu, st0, EArith(op, e1, e2), st3, d, [], [])
  {
    hide EdOk, CompiledAt, EncodedAt, Coded, Jumps, ListOf;
    ExtendsTrans(st0, st2, st3);
    FrameTrans(st0.c.code, st1.c.code, st3.c.code, st0.c.pend, st0.c.pend, st0.c.pend);
    assert Elems([]) == {};
    forall x ensures CompiledAt(x, nu, st0, EArith(op, e1, e2), st3, d, [], []) {
      ArithCompiledAt(x, nu, st0, op, e1, e2, st1, o1, o2, st2, st3, d);
    }
  }

  lemma ArithCompiledAt(x: At, nu: Numbers, st0: St, op: ArithOp, e1: Expr, e2: Expr, st1: St, o1: int, o2: int, st2: St, st3: St, d: ExpDesc)
    requires EncodedAt(x, nu, st0, e1, e2, st1, o1, o2) && Jumps(st1.c) && st2 == st1.(freereg := st0.freereg) && st3.k == st2.k
    requires Coded(st2.c, st3.c, [Arith(op, 0, o1, o2)], {}) && d == ExpDesc(VReloc(|st2.c.code|), NO_JUMP, NO_JUMP)
    ensures CompiledAt(x, nu, st0, EArith(op, e1, e2), st3, d, [], [])
  {
    hide Seen, EncodedAt, CompiledAt, Jumps, Discharged;
    var n := |st2.c.code|;
    assert st3.c.code[n] == st3.c.code[n..][0];
    if Out(x, st1.c) != Stuck {
      DischargeRun(x.env, st1.c, Core(st3.c, d), x.s, x.R0);
    }
    Computes(x, nu, st0, op, e1, e2, st1, o1, o2, st3, d);
  }

  lemma Computes(x: At, nu: Numbers, st0: St, op: ArithOp, e1: Expr, e2: Expr, st1: St, o1: int, o2: int, st3: St, d: ExpDesc)
    requires EncodedAt(x, nu, st0, e1, e2, st1, o1, o2) && st3.k == st1.k
    requires d.k.VReloc? && 0 <= d.k.info < |st3.c.code| && st3.c.code[d.k.info] == Arith(op, 0, o1, o2)
    requires Out(x, st1.c) != Stuck ==> Out(x, Core(st3.c, d)) == Out(x, st1.c)
    ensures CompiledAt(x, nu, st0, EArith(op, e1, e2), st3, d, [], [])
  {
    hide Seen, Out, Core;
  }

  lemma FoldCompiled(nu: Numbers, st0: St, op: ArithOp, e1: Expr, e2: Expr, st1: St, st2: St, d1: ExpDesc, d2: ExpDesc, d: ExpDesc)
    requires Kept(nu, st0, e1, st1, d1) && Kept(nu, st1, e2, st2, d2) && d1.k.VKNum? && d2.k.VKNum? && Jumps(st2.c)
    requires 0 <= st0.nactvar <= st0.freereg && WellScoped(e2, st0.nactvar)
    requires d == ExpDesc(VKNum(nu.op(op, d1.k.nval, d2.k.nval)), NO_JUMP, NO_JUMP)
    ensures Compiled(nu, st0, EArith(op, e1, e2), st2, d, [], [])
  {
    PassedTrans(st0, st1, st2);
    var none: seq<int>, e := [], EArith(op, e1, e2);
    assert Elems(none) == {};
    assert forall i :: LinkAt(st2.c.code, none, i);
    forall x ensures CompiledAt(x, nu, st0, e, st2, d, none, none) {
      assert KeptAt(x, nu, st0, e1, st1, d1) && KeptAt(x, nu, st1, e2, st2, d2);
      if Seen(x, nu, st0, st2.k) {
        SeenLater(x, nu, st0, st1, st2.k);
        FoldedAt(x, nu, st0, op, e1, e2, st1, st2, d1, d2, d);
      }
    }
  }

  lemma FoldedAt(x: At, nu: Numbers, st0: St, op: ArithOp, e1: Expr, e2: Expr, st1: St, st2: St, d1: ExpDesc, d2: ExpDesc, d: ExpDesc)
    requires KeptAt(x, nu, st0, e1, st1, d1) && KeptAt(x, nu, st1, e2, st2, d2) && d1.k.VKNum? && d2.k.VKNum?
    requires (d1.k.nval.Integer? || d1.k.nval.Float?) && (d2.k.nval.Integer? || d2.k.nval.Float?)
    requires Seen(x, nu, st0, st2.k) && Seen(x, nu, st1, st2.k) && Seen(x, nu, st0, st1.k)
    requires 0 <= st0.nactvar <= st0.freereg == st1.freereg && WellScoped(e2, st0.nactvar)
    requires d == ExpDesc(VKNum(nu.op(op, d1.k.nval, d2.k.nval)), NO_JUMP, NO_JUMP)
    ensures CompiledAt(x, nu, st0, EArith(op, e1, e2), st2, d, [], [])
  {
    hide WellScoped;
    var o, o1 := Out(x, st0.c), Out(x, st1.c);
    if o.Fall? && o1.Fall? {
      EvalAgree(x.env, e2, o.R, o1.R, st0.nactvar);
    }
    assert SameNumberAt(x.env, nu, op, d1.k.nval, d2.k.nval);
  }

  /** The comparison codecomp emits: > and >= exchange their operands, ~= inverts the condition. */
  ghost predicate ComparesFor(rel: RelOp, t: Instr, o1: int, o2: int) {
    match rel
    case EQ => t == Cmp(OpEq, 1, o1, o2)
    case NE => t == Cmp(OpEq, 0, o1, o2)
    case LT => t == Cmp(OpLt, 1, o1, o2)
    case LE => t == Cmp(OpLe, 1, o1, o2)
    case GT => t == Cmp(OpLt, 1, o2, o1)
    case GE => t == Cmp(OpLe, 1, o2, o1)
  }

  lemma ComparisonCompiled(nu: Numbers, st0: St, rel: RelOp, e1: Expr, e2: Expr, st1: St, o1: int, o2: int,
                           st2: St, t: Instr, st3: St, d: ExpDesc)
    requires Encoded(nu, st0, e1, e2, st1, o1, o2) && Jumps(st1.c) && st2 == st1.(freereg := st0.freereg)
    requires Passed(st0, st1) && Extends(st2, st3) && Frame(st2.c.code, st3.c.code, st2.c.pend) && st3.freereg == st2.freereg
    requires ComparesFor(rel, t, o1, o2) && st3.k == st2.k
    requires var pc := |st2.c.code| + 1; Coded(st2.c, st3.c, [t, Jmp(NO_JUMP)], {pc}) && d == ExpDesc(VJmp(pc), NO_JUMP, NO_JUMP)
    requires EdOk(st3, d, [], [])
    ensures Compiled(nu, st0, ERel(rel, e1, e2), st3, d, [], [])
  {
    ExtendsTrans(st0, st2, st3);
    FrameTrans(st0.c.code, st1.c.code, st3.c.code, st0.c.pend, st0.c.pend, st0.c.pend);
    assert Elems([]) == {};
    NewJump(st1.c, |st2.c.code| + 1);
    forall x ensures CompiledAt(x, nu, st0, ERel(rel, e1, e2), st3, d, [], []) {
      ComparisonCompiledAt(x, nu, st0, rel, e1, e2, st1, o1, o2, st2, t, st3, d);
    }
  }

  lemma ComparisonCompiledAt(x: At, nu: Numbers, st0: St, rel: RelOp, e1: Expr, e2: Expr, st1: St, o1: int, o2: int,
                             st2: St, t: Instr, st3: St, d: ExpDesc)
    requires EncodedAt(x, nu, st0, e1, e2, st1, o1, o2) && Jumps(st1.c) && st2 == st1.(freereg := st0.freereg)
    requires ComparesFor(rel, t, o1, o2) && st3.k == st2.k
    requires var pc := |st2.c.code| + 1; Coded(st2.c, st3.c, [t, Jmp(NO_JUMP)], {pc}) && d == ExpDesc(VJmp(pc), NO_JUMP, NO_JUMP)
    ensures CompiledAt(x, nu, st0, ERel(rel, e1, e2), st3, d, [], [])
  {
    hide Seen, EncodedAt, ComparesFor, CompiledAt, Jumps, Discharged;
    var n := |st2.c.code|;
    assert st3.c.code[n] == st3.c.code[n..][0];
    NewJump(st1.c, n + 1);
    assert {n + 1} !! st1.c.pend;
    if Out(x, st1.c) != Stuck {
      DischargeRun(x.env, st1.c, Core(st3.c, d), x.s, x.R0);
    }
    Compares(x, nu, st0, rel, e1, e2, st1, o1, o2, t, st3, d);
  }

  lemma Compares(x: At, nu: Numbers, st0: St, rel: RelOp, e1: Expr, e2: Expr, st1: St, o1: int, o2: int, t: Instr, st3: St, d: ExpDesc)
    requires EncodedAt(x, nu, st0, e1, e2, st1, o1, o2) && ComparesFor(rel, t, o1, o2) && st3.k == st1.k
    requires d.k.VJmp? && 1 <= d.k.info <= |st3.c.code| && st3.c.code[d.k.info - 1] == t
    requires Out(x, st1.c) != Stuck ==> Out(x, Core(st3.c, d)) == Out(x, st1.c)
    ensures CompiledAt(x, nu, st0, ERel(rel, e1, e2), st3, d, [], [])
  {
    hide Seen, Out, Core;
  }

  predicate IsNumeral(d: ExpDesc) {
    d.k.VKNum? && d.t == NO_JUMP && d.f == NO_JUMP
  }

  /** constfolding: no division by zero, no NaN. */
  method ConstFolding(nu: Numbers, op: ArithOp, d1: ExpDesc, d2: ExpDesc) returns (r: Option<Value>)
    ensures r.Some? <==> && d1.k.VKNum? && d1.t == -1 && d1.f == -1 && d2.k.VKNum? && d2.t == -1 && d2.f == -1
                         && !((op == OpDiv || op == OpMod) && nu.isZero(d2.k.nval)) && !nu.isNaN(nu.op(op, d1.k.nval, d2.k.nval))
    ensures r.Some? ==> r.value == nu.op(op, d1.k.nval, d2.k.nval)
  {
    if !IsNumeral(d1) || !IsNumeral(d2) {
      return None;
    }
    match op {
      case OpDiv => if nu.isZero(d2.k.nval) { return None; }
      case OpMod => if nu.isZero(d2.k.nval) { return None; }
      case _ =>
    }
    var v := nu.op(op, d1.k.nval, d2.k.nval);
    if nu.isNaN(v) {
      return None;
    }
    r := Some(v);
  }

  /** The operand in front of a binary operator (luaK_infix): numbers wait to be folded. */
  method FirstOperand(fs: FuncState, nu: Numbers, e: Expr, folds: bool) returns (r: Result<ExpDesc>)
    requires fs.Valid() && WellScoped(e, fs.nactvar)
    modifies fs
    ensures r.Success? ==> fs.Valid() && Kept(nu, old(fs.S()), e, fs.S(), r.value) && (!folds ==> IsOperand(r.value))
    ensures r.Failure? ==> fs.AtLimit(r.error)
    decreases e, 3
  {
    ghost var st0 := fs.S();
    ghost var T, F: seq<int>;
    var d;
    d, T, F := Expression(fs, nu, e);
    if d.Failure? { return Failure(d.error); }
    if folds && IsNumeral(d.value) {
      NumeralKept(nu, st0, e, fs.S(), d.value, T, F);
      return Success(d.value);
    }
    r := OperandOf(fs, nu, e, d.value, st0, T, F);
  }

  /** luaK_exp2RK on a compiled expression. */
  method OperandOf(fs: FuncState, nu: Numbers, e: Expr, d: ExpDesc, ghost st0: St, ghost T: seq<int>, ghost F: seq<int>)
      returns (r: Result<ExpDesc>)
    requires fs.Valid() && Compiled(nu, st0, e, fs.S(), d, T, F) && 0 <= st0.nactvar <= st0.freereg
    modifies fs
    ensures r.Success? ==> fs.Valid() && Kept(nu, st0, e, fs.S(), r.value) && IsOperand(r.value)
    ensures r.Failure? ==> fs.AtLimit(r.error)
  {
    ghost var st1 := fs.S();
    var a :- fs.LuaKExp2RK(d, T, F);
    OperandKept(nu, st0, e, st1, d, T, F, fs.S(), a.0, a.1);
    r := Success(a.1);
  }

  /** The body of subexpr for a comparison: luaK_infix, the second operand, codecomp. */
  method Comparison(fs: FuncState, nu: Numbers, rel: RelOp, e1: Expr, e2: Expr) returns (r: Result<ExpDesc>)
    requires fs.Valid() && WellScoped(e1, fs.nactvar) && WellScoped(e2, fs.nactvar)
    modifies fs
    ensures r.Success? ==> fs.Valid() && Compiled(nu, old(fs.S()), ERel(rel, e1, e2), fs.S(), r.value, [], [])
    ensures r.Failure? ==> fs.AtLimit(r.error)
    decreases ERel(rel, e1, e2), 1
  {
    ghost var st0 := fs.S();
    var d1 :- FirstOperand(fs, nu, e1, false);
    ghost var st1 := fs.S();
    ghost var T, F: seq<int>;
    var d2;
    d2, T, F := Expression(fs, nu, e2);
    if d2.Failure? { return Failure(d2.error); }
    r := CodeComp(fs, nu, rel, e1, e2, d1, d2.value, st0, st1, T, F);
  }

  lemma SameOperand(st: St, d: ExpDesc, opd: int, nk: int)
    requires Operand(d, opd, nk)
    ensures Operands(st, d, [], [], st, opd)
  {
    forall x ensures OperandAt(x, st, d, [], [], st, opd) {
    }
  }

  /** codecomp: both operands, the comparison and its jump. */
  method CodeComp(fs: FuncState, nu: Numbers, rel: RelOp, e1: Expr, e2: Expr, d1: ExpDesc, d2: ExpDesc,
                  ghost st0: St, ghost st1: St, ghost T: seq<int>, ghost F: seq<int>) returns (r: Result<ExpDesc>)
    requires fs.Valid() && Kept(nu, st0, e1, st1, d1) && IsOperand(d1) && Compiled(nu, st1, e2, fs.S(), d2, T, F)
    requires 0 <= st0.nactvar <= st0.freereg && WellScoped(e2, st0.nactvar)
    modifies fs
    ensures r.Success? ==> fs.Valid() && Compiled(nu, st0, ERel(rel, e1, e2), fs.S(), r.value, [], [])
    ensures r.Failure? ==> fs.AtLimit(r.error)
  {
    hide FuncState.Valid, Encoded, Both, Operands, Passed, TempAt, Kept, Compiled, Operand, TwoTemps, WellScoped;
    KeptScope(nu, st0, e1, st1, d1, fs.S(), e2, d2, T, F);
    KeptDescriptor(nu, st0, e1, st1, d1, fs.S());
    var opd1 := OperandAgain(fs, d1);
    var a := SecondOperand(fs, nu, e1, e2, d1, d2, st0, st1, T, F);
    if a.Failure? { return Failure(a.error); }
    ghost var st3 := fs.S();
    SameOperand(st3, d1, opd1, |st3.k|);
    FirstEncoded(nu, st0, e1, e2, st3, d1, a.value.0, st3, opd1);
    KeptTemps(nu, st0, e1, st1, d1, opd1, st3, a.value.1, a.value.0);
    FreeSecondFirst(fs, opd1, d1, a.value.0, a.value.1, st0.freereg);
    r := EmitComparison(fs, nu, rel, e1, e2, opd1, a.value.0, st0, st3);
  }

  /** codecomp frees the second operand first: it has the higher register. */
  method FreeSecondFirst(fs: FuncState, o1: int, a1: ExpDesc, o2: int, a2: ExpDesc, ghost base: int)
    requires fs.Valid() && Operand(a1, o1, |fs.k|) && Operand(a2, o2, |fs.k|)
    requires TwoTemps(fs.nactvar, fs.freereg, base, o1, a1, o2, a2)
    requires Temporary(fs.nactvar, a1) && Temporary(fs.nactvar, a2) ==> o1 < o2
    modifies fs`freereg
    ensures fs.Valid() && fs.freereg == base
  {
    fs.FreeExp(a2);
    fs.FreeExp(a1);
  }

  lemma KeptTemps(nu: Numbers, st0: St, e1: Expr, st1: St, d1: ExpDesc, o1: int, st3: St, a2: ExpDesc, o2: int)
    requires Kept(nu, st0, e1, st1, d1) && Operand(d1, o1, |st3.k|) && Operand(a2, o2, |st3.k|) && TempAt(st1, st3, a2)
    requires st3.nactvar == st0.nactvar <= st0.freereg
    ensures TwoTemps(st3.nactvar, st3.freereg, st0.freereg, o1, d1, o2, a2)
    ensures Temporary(st3.nactvar, d1) && Temporary(st3.nactvar, a2) ==> o1 < o2
  {
  }

  /** luaK_exp2RK on something that is an operand already. */
  method OperandAgain(fs: FuncState, d: ExpDesc) returns (opd: int)
    requires fs.Valid() && EdOk(fs.S(), d, [], []) && IsOperand(d)
    modifies fs
    ensures fs.Valid() && fs.S() == old(fs.S()) && Operand(d, opd, |fs.k|)
  {
    NoElems([]);
    var a := fs.LuaKExp2RK(d, [], []);
    opd := a.value.0;
  }

  /** luaK_exp2RK on the second operand. */
  method SecondOperand(fs: FuncState, nu: Numbers, e1: Expr, e2: Expr, d1: ExpDesc, d2: ExpDesc,
                       ghost st0: St, ghost st1: St, ghost T: seq<int>, ghost F: seq<int>) returns (r: Result<(int, ExpDesc)>)
    requires fs.Valid() && Kept(nu, st0, e1, st1, d1) && Compiled(nu, st1, e2, fs.S(), d2, T, F)
    requires 0 <= st0.nactvar <= st0.freereg && WellScoped(e2, st0.nactvar)
    modifies fs
    ensures r.Success? ==>
              && fs.Valid() && Both(nu, st0, e1, e2, fs.S(), d1, r.value.0) && Passed(st0, fs.S())
              && Operand(r.value.1, r.value.0, |fs.k|) && TempAt(st1, fs.S(), r.value.1) && EdOk(fs.S(), d1, [], [])
              && Extends(st1, fs.S())
    ensures r.Failure? ==> fs.AtLimit(r.error)
  {
    ghost var st2 := fs.S();
    r := fs.LuaKExp2RK(d2, T, F);
    if r.Failure? { return; }
    OperandKept(nu, st1, e2, st2, d2, T, F, fs.S(), r.value.0, r.value.1);
    SecondKept(nu, st0, e1, st1, d1, e2, fs.S(), r.value.1, r.value.0);
    KeptDescriptor(nu, st0, e1, st1, d1, fs.S());
  }

  /** The descriptor of the first operand is still in order after the second was compiled. */
  lemma KeptDescriptor(nu: Numbers, st0: St, e: Expr, st1: St, d: ExpDesc, st2: St)
    requires Kept(nu, st0, e, st1, d) && Extends(st1, st2) && st2.freereg >= st1.freereg
    ensures EdOk(st2, d, [], [])
  {
    var none: seq<int> := [];
    assert forall i :: LinkAt(st2.c.code, none, i);
    assert Elems(none) == {};
  }

  method EmitComparison(fs: FuncState, nu: Numbers, rel: RelOp, e1: Expr, e2: Expr, opd1: int, opd2: int, ghost st0: St, ghost st1: St)
      returns (r: Result<ExpDesc>)
    requires fs.Valid() && Encoded(nu, st0, e1, e2, st1, opd1, opd2) && Passed(st0, st1) && fs.S() == st1.(freereg := st0.freereg)
    modifies fs
    ensures r.Success? ==> fs.Valid() && Compiled(nu, st0, ERel(rel, e1, e2), fs.S(), r.value, [], [])
    ensures r.Failure? ==> fs.AtLimit(r.error)
  {
    var op := if rel.EQ? || rel.NE? then OpEq else if rel.LT? || rel.GT? then OpLt else OpLe;
    var cond := if rel.NE? || rel.GT? || rel.GE? then 0 else 1;
    var o1, o2 := opd1, opd2;
    if cond == 0 && op != OpEq {
      o1, o2 := o2, o1;
      cond := 1;
    }
    var t := Cmp(op, cond, o1, o2);
    ghost var st2 := fs.S();
    var pc :- fs.CondJump(t);
    var d := ExpDesc(VJmp(pc), NO_JUMP, NO_JUMP);
    ComparisonOk(st2, fs.S(), t, d);
    ComparisonCompiled(nu, st0, rel, e1, e2, st1, opd1, opd2, st2, t, fs.S(), d);
    r := Success(d);
  }

  lemma ComparisonOk(st0: St, st1: St, t: Instr, d: ExpDesc)
    requires Jumps(st0.c) && Jumps(st1.c) && t.Cmp? && 0 <= t.a <= 1 && d == ExpDesc(VJmp(|st0.c.code| + 1), NO_JUMP, NO_JUMP)
    requires Coded(st0.c, st1.c, [t, Jmp(NO_JUMP)], {|st0.c.code| + 1}) && EndsWithin(st1.c, |st0.c.code|)
    requires ListOf(st1.c.code, d.k.info, [d.k.info])
    ensures EdOk(st1, d, [], [])
  {
    var none: seq<int>, n := [], |st0.c.code|;
    assert forall i :: LinkAt(st1.c.code, none, i);
    assert Elems(none) == {};
    assert st1.c.code[n] == st1.c.code[n..][0];
  }

  /** The body of subexpr for an arithmetic operator. */
  method Arithmetic(fs: FuncState, nu: Numbers, op: ArithOp, e1: Expr, e2: Expr) returns (r: Result<ExpDesc>)
    requires fs.Valid() && WellScoped(e1, fs.nactvar) && WellScoped(e2, fs.nactvar)
    modifies fs
    ensures r.Success? ==> fs.Valid() && Compiled(nu, old(fs.S()), EArith(op, e1, e2), fs.S(), r.value, [], [])
    ensures r.Failure? ==> fs.AtLimit(r.error)
    decreases EArith(op, e1, e2), 1
  {
    hide Frame, ListOf, FuncState.Valid;
    ghost var st0 := fs.S();
    var d1 :- FirstOperand(fs, nu, e1, true);
    ghost var st1 := fs.S();
    ghost var T, F: seq<int>;
    var d2;
    d2, T, F := Expression(fs, nu, e2);
    if d2.Failure? { return Failure(d2.error); }
    var folded := ConstFolding(nu, op, d1, d2.value);
    if folded.Some? {
      var d := ExpDesc(VKNum(folded.value), NO_JUMP, NO_JUMP);
      NumeralKept(nu, st1, e2, fs.S(), d2.value, T, F);
      FoldCompiled(nu, st0, op, e1, e2, st1, fs.S(), d1, d2.value, d);
      return Success(d);
    }
    r := CodeArith(fs, nu, op, e1, e2, d1, d2.value, st0, st1, T, F);
  }

  /** codearith, when nothing can be folded. */
  method CodeArith(fs: FuncState, nu: Numbers, op: ArithOp, e1: Expr, e2: Expr, d1: ExpDesc, d2: ExpDesc,
                   ghost st0: St, ghost st1: St, ghost T: seq<int>, ghost F: seq<int>) returns (r: Result<ExpDesc>)
    requires fs.Valid() && Kept(nu, st0, e1, st1, d1) && Compiled(nu, st1, e2, fs.S(), d2, T, F)
    requires 0 <= st0.nactvar <= st0.freereg && WellScoped(e2, st0.nactvar)
    modifies fs
    ensures r.Success? ==> fs.Valid() && Compiled(nu, st0, EArith(op, e1, e2), fs.S(), r.value, [], [])
    ensures r.Failure? ==> fs.AtLimit(r.error)
  {
    hide WellScoped, Compiled, FuncState.Valid, Both, Kept, Encoded, Passed, EdOk, TempAt, Operand, TwoTemps, Extends;
    KeptScope(nu, st0, e1, st1, d1, fs.S(), e2, d2, T, F);
    var b2 := SecondOperand(fs, nu, e1, e2, d1, d2, st0, st1, T, F);
    if b2.Failure? { return Failure(b2.error); }
    var (o2, a2) := b2.value;
    var b1 := FirstOfTwo(fs, nu, e1, e2, d1, o2, a2, st0, st1);
    if b1.Failure? { return Failure(b1.error); }
    var (o1, a1) := b1.value;
    ghost var st4 := fs.S();
    FreeOperands(fs, o1, a1, o2, a2, st0.freereg);
    r := EmitArith(fs, nu, op, e1, e2, o1, o2, st0, st4);
  }

  lemma KeptScope(nu: Numbers, st0: St, e1: Expr, st1: St, d1: ExpDesc, st2: St, e2: Expr, d2: ExpDesc, T: seq<int>, F: seq<int>)
    requires Kept(nu, st0, e1, st1, d1) && Compiled(nu, st1, e2, st2, d2, T, F)
    ensures st2.nactvar == st0.nactvar && Extends(st1, st2) && st2.freereg == st1.freereg
  {
  }

  /** luaK_exp2RK on the first operand, when the second has its place. */
  method FirstOfTwo(fs: FuncState, nu: Numbers, e1: Expr, e2: Expr, d1: ExpDesc, o2: int, a2: ExpDesc, ghost st0: St, ghost st1: St)
      returns (r: Result<(int, ExpDesc)>)
    requires fs.Valid() && Kept(nu, st0, e1, st1, d1) && Both(nu, st0, e1, e2, fs.S(), d1, o2) && Passed(st0, fs.S())
    requires Operand(a2, o2, |fs.k|) && TempAt(st1, fs.S(), a2) && EdOk(fs.S(), d1, [], []) && Extends(st1, fs.S())
    requires 0 <= st0.nactvar <= st0.freereg
    modifies fs
    ensures r.Success? ==>
              && fs.Valid() && Encoded(nu, st0, e1, e2, fs.S(), r.value.0, o2) && Passed(st0, fs.S())
              && Operand(r.value.1, r.value.0, |fs.k|) && Operand(a2, o2, |fs.k|)
              && TwoTemps(fs.nactvar, fs.freereg, st0.freereg, r.value.0, r.value.1, o2, a2)
    ensures r.Failure? ==> fs.AtLimit(r.error)
  {
    hide Operands, WellScoped, Compiled, FuncState.Valid, Both, Encoded;
    ghost var st3 := fs.S();
    NoElems([]);
    r := fs.LuaKExp2RK(d1, [], []);
    if r.Failure? { return; }
    FirstEncoded(nu, st0, e1, e2, st3, d1, o2, fs.S(), r.value.0);
    PassedTrans(st0, st3, fs.S());
  }

  /** The temporary registers of two operands are the ones above `base`. */
  ghost predicate TwoTemps(nactvar: int, freereg: int, base: int, o1: int, a1: ExpDesc, o2: int, a2: ExpDesc) {
    var t1, t2 := Temporary(nactvar, a1), Temporary(nactvar, a2);
    && nactvar <= base && freereg == base + (if t1 then 1 else 0) + (if t2 then 1 else 0)
    && (t1 ==> base <= o1 < freereg) && (t2 ==> base <= o2 < freereg) && (t1 && t2 ==> o1 != o2)
  }

  /** codearith frees the operand in the higher register first. */
  method FreeOperands(fs: FuncState, o1: int, a1: ExpDesc, o2: int, a2: ExpDesc, ghost base: int)
    requires fs.Valid() && Operand(a1, o1, |fs.k|) && Operand(a2, o2, |fs.k|)
    requires TwoTemps(fs.nactvar, fs.freereg, base, o1, a1, o2, a2)
    modifies fs`freereg
    ensures fs.Valid() && fs.freereg == base
  {
    if o1 > o2 {
      fs.FreeExp(a1);
      fs.FreeExp(a2);
    } else {
      fs.FreeExp(a2);
      fs.FreeExp(a1);
    }
  }

  predicate Temporary(nactvar: int, a: ExpDesc) {
    a.k.VNonReloc? && a.k.info >= nactvar
  }

  method EmitArith(fs: FuncState, nu: Numbers, op: ArithOp, e1: Expr, e2: Expr, opd1: int, opd2: int, ghost st0: St, ghost st1: St)
      returns (r: Result<ExpDesc>)
    requires fs.Valid() && Encoded(nu, st0, e1, e2, st1, opd1, opd2) && Passed(st0, st1) && fs.S() == st1.(freereg := st0.freereg)
    modifies fs
    ensures r.Success? ==> fs.Valid() && Compiled(nu, st0, EArith(op, e1, e2), fs.S(), r.value, [], [])
    ensures r.Failure? ==> fs.AtLimit(r.error)
  {
    ghost var st2 := fs.S();
    ghost var none: seq<int> := [];
    assert Elems(none) == {} && forall i :: LinkAt(fs.code, none, i);
    r := CodeReloc(fs, Arith(op, 0, opd1, opd2), NO_JUMP, NO_JUMP, none, none);
    if r.Failure? { return; }
    ArithCompiled(nu, st0, op, e1, e2, st1, opd1, opd2, st2, fs.S(), r.value);
  }

  /** The body of subexpr for `and` (cond is false) and `or` (cond is true). */
  method Logical(fs: FuncState, nu: Numbers, cond: bool, e1: Expr, e2: Expr, ghost e: Expr)
      returns (r: Result<ExpDesc>, ghost T': seq<int>, ghost F': seq<int>)
    requires fs.Valid() && WellScoped(e1, fs.nactvar) && WellScoped(e2, fs.nactvar)
    requires e == if cond then EOr(e1, e2) else EAnd(e1, e2)
    modifies fs
    ensures r.Success? ==> fs.Valid() && Compiled(nu, old(fs.S()), e, fs.S(), r.value, T', F')
    ensures r.Failure? ==> fs.AtLimit(r.error)
    decreases e, 1
  {
    hide WellScoped, Compiled, Elems, ListOf, FuncState.Valid, Cond, FuncState.AtLimit;
    ghost var st0 := fs.S();
    T', F' := [], [];
    ghost var L: seq<int>;
    var l;
    l, L := Condition(fs, nu, cond, e1);
    if l.Failure? { return Failure(l.error), [], []; }
    CondScope(nu, st0, e1, fs.S(), L, cond);
    r, T', F' := SecondLogical(fs, nu, cond, e1, e2, l.value, L, st0);
  }

  /** The first operand of `and` or `or`, compiled and jumped on (luaK_infix). */
  method Condition(fs: FuncState, nu: Numbers, cond: bool, e: Expr) returns (r: Result<int>, ghost L: seq<int>)
    requires fs.Valid() && WellScoped(e, fs.nactvar)
    modifies fs
    ensures r.Success? ==> fs.Valid() && Cond(nu, old(fs.S()), e, fs.S(), L, cond) && ListOf(fs.code, r.value, L)
    ensures r.Failure? ==> fs.AtLimit(r.error)
    decreases e, 3
  {
    ghost var st0 := fs.S();
    ghost var T, F: seq<int>;
    L := [];
    var d;
    d, T, F := Expression(fs, nu, e);
    if d.Failure? { return Failure(d.error), []; }
    ghost var st1 := fs.S();
    r, L := GoIf(fs, d.value, cond, T, F);
    if r.Failure? { return; }
    CondCompiled(nu, st0, e, st1, d.value, T, F, fs.S(), L, cond);
  }

  method SecondLogical(fs: FuncState, nu: Numbers, cond: bool, e1: Expr, e2: Expr, l: int, ghost L: seq<int>, ghost st0: St)
      returns (r: Result<ExpDesc>, ghost T': seq<int>, ghost F': seq<int>)
    requires fs.Valid() && WellScoped(e2, fs.nactvar) && Cond(nu, st0, e1, fs.S(), L, cond) && ListOf(fs.code, l, L)
    modifies fs
    ensures r.Success? ==> fs.Valid() && Compiled(nu, st0, if cond then EOr(e1, e2) else EAnd(e1, e2), fs.S(), r.value, T', F')
    ensures r.Failure? ==> fs.AtLimit(r.error)
    decreases e2, 3
  {
    ghost var st1 := fs.S();
    ghost var T, F: seq<int>;
    T', F' := [], [];
    var d2;
    d2, T, F := Expression(fs, nu, e2);
    if d2.Failure? { return Failure(d2.error), [], []; }
    ghost var st2 := fs.S();
    KeptElsewhere(st1.c.code, fs.code, l, L, st1.c.pend);
    r := PosfixLogical(fs, cond, l, d2.value, L, T, F);
    if r.Failure? { return; }
    T', F' := if cond then T + L else T, if cond then F else F + L;
    LogicalTidy(st0, st1, L, cond, st2, d2.value, T, F, fs.S(), r.value, T', F');
    LogicalCompiled(nu, st0, e1, st1, L, cond, e2, st2, d2.value, T, F, fs.S(), r.value, T', F');
  }

  lemma LogicalTidy(st0: St, st1: St, L: seq<int>, cond: bool, st2: St, d: ExpDesc, T: seq<int>, F: seq<int>,
                    st3: St, d': ExpDesc, T': seq<int>, F': seq<int>)
    requires Extends(st0, st1) && st1.freereg == st0.freereg && Frame(st0.c.code, st1.c.code, st0.c.pend)
    requires st1.c.pend == st0.c.pend + Elems(L) && Elems(L) !! st0.c.pend
    requires Tidy(st1, st2, d, T, F) && AbsorbedOk(st2, d, st3, d', cond, T, F, L)
    requires if cond then T' == T + L && F' == F else T' == T && F' == F + L
    ensures Tidy(st0, st3, d', T', F')
  {
    ElemsAppend(T, L);
    ElemsAppend(F, L);
    ExtendsTrans(st0, st1, st2);
    ExtendsTrans(st0, st2, st3);
    FrameTrans(st0.c.code, st1.c.code, st2.c.code, st0.c.pend, st1.c.pend, st0.c.pend);
    FrameTrans(st0.c.code, st2.c.code, st3.c.code, st0.c.pend, st2.c.pend - Elems(T) - Elems(F), st0.c.pend);
  }

  /** subexpr over a syntax tree: the code generation calls made for each operator. */
  method Expression(fs: FuncState, nu: Numbers, e: Expr) returns (r: Result<ExpDesc>, ghost T: seq<int>, ghost F: seq<int>)
    requires fs.Valid() && WellScoped(e, fs.nactvar)
    modifies fs
    ensures r.Success? ==> fs.Valid() && Compiled(nu, old(fs.S()), e, fs.S(), r.value, T, F)
    ensures r.Failure? ==> fs.AtLimit(r.error)
    decreases e, 2
  {
    T, F := [], [];
    match e {
      case ENot(e1) => r, T, F := Negation(fs, nu, e1);
      case EAnd(e1, e2) => r, T, F := Logical(fs, nu, false, e1, e2, e);
      case EOr(e1, e2) => r, T, F := Logical(fs, nu, true, e1, e2, e);
      case ERel(rel, e1, e2) => r := Comparison(fs, nu, rel, e1, e2);
      case EArith(op, e1, e2) => r := Arithmetic(fs, nu, op, e1, e2);
      case _ => r := SimpleExp(fs, nu, e);
    }
  }

  method Negation(fs: FuncState, nu: Numbers, e: Expr) returns (r: Result<ExpDesc>, ghost T': seq<int>, ghost F': seq<int>)
    requires fs.Valid() && WellScoped(e, fs.nactvar)
    modifies fs
    ensures r.Success? ==> fs.Valid() && Compiled(nu, old(fs.S()), ENot(e), fs.S(), r.value, T', F')
    ensures r.Failure? ==> fs.AtLimit(r.error)
    decreases e, 3
  {
    ghost var st0 := fs.S();
    ghost var T, F: seq<int>;
    var d;
    d, T, F := Expression(fs, nu, e);
    T', F' := F, T;
    if d.Failure? { return Failure(d.error), [], []; }
    ghost var st1 := fs.S();
    r := CodeNot(fs, d.value, T, F);
    if r.Failure? { return; }
    NotCompiled(nu, st0, e, st1, d.value, T, F, fs.S(), r.value);
  }

  // ---------------------------------------------------------------------------
  // Whole statements
  // ---------------------------------------------------------------------------

  /** Running the code puts the value of the expression into `reg`; the other registers in use keep
      their values, and falling off the end is how the run ends. */
  ghost predicate StoredAt(x: At, nu: Numbers, st0: St, e: Expr, st1: St, reg: int) {
    var o, o' := Out(x, st0.c), Out(x, st1.c);
    Seen(x, nu, st0, st1.k) && o != Stuck ==>
      if o.Fall? then
        match Eval(x.env, e, o.R)
        case None => o' == Error
        case Some(v) =>
          o'.Fall? && Reg(o'.R, reg) == v && forall i :: 0 <= i < st0.freereg && i < 256 && i != reg ==> o'.R[i] == o.R[i]
      else
        o' == o
  }

  ghost predicate Stored(nu: Numbers, st0: St, e: Expr, st1: St, reg: int) {
    forall x :: StoredAt(x, nu, st0, e, st1, reg)
  }

  lemma StoredFrom(nu: Numbers, st0: St, e: Expr, st1: St, d: ExpDesc, T: seq<int>, F: seq<int>, st2: St, reg: int)
    requires Compiled(nu, st0, e, st1, d, T, F) && Stores(st1, d, T, F, st2, reg) && Extends(st1, st2)
    ensures Stored(nu, st0, e, st2, reg)
  {
    forall x ensures StoredAt(x, nu, st0, e, st2, reg) {
      assert CompiledAt(x, nu, st0, e, st1, d, T, F) && StoreAt(x, st1, d, T, F, st2, reg);
      if Seen(x, nu, st0, st2.k) {
        SeenLater(x, nu, st0, st1, st2.k);
        ExitsArePending(x.env, st0.c, x.s, x.R0);
        assert forall p :: p in T || p in F ==> p in Elems(T) + Elems(F);
      }
    }
  }

  /** An assignment to a local variable (luaK_storevar). */
  method AssignLocal(fs: FuncState, nu: Numbers, e: Expr, reg: int) returns (r: Result<()>)
    requires fs.Valid() && WellScoped(e, fs.nactvar) && 0 <= reg < fs.nactvar
    modifies fs
    ensures r.Success? ==>
              && fs.Valid() && Passed(old(fs.S()), fs.S()) && fs.freereg == old(fs.freereg)
              && Stored(nu, old(fs.S()), e, fs.S(), reg)
    ensures r.Failure? ==> fs.AtLimit(r.error)
  {
    ghost var st0 := fs.S();
    ghost var T, F: seq<int>;
    var d;
    d, T, F := Expression(fs, nu, e);
    if d.Failure? { return Failure(d.error); }
    ghost var st1 := fs.S();
    fs.FreeExp(d.value);
    var _ :- fs.Exp2Reg(d.value, reg, T, F);
    StoredFrom(nu, st0, e, st1, d.value, T, F, fs.S(), reg);
    PassedStore(st0, st1, d.value, T, F, fs.S());
    r := Success(());
  }

  lemma PassedStore(st0: St, st1: St, d: ExpDesc, T: seq<int>, F: seq<int>, st2: St)
    requires Tidy(st0, st1, d, T, F) && Extends(st1, st2) && Frame(st1.c.code, st2.c.code, st2.c.pend)
    requires st2.c.pend == st1.c.pend - Elems(T) - Elems(F) - Own(d)
    ensures Passed(st0, st2)
  {
    ExtendsTrans(st0, st1, st2);
    assert st2.c.pend == st0.c.pend;
    FrameTrans(st0.c.code, st1.c.code, st2.c.code, st0.c.pend, st0.c.pend, st0.c.pend);
  }

  /** The value of an expression in the next register: a local declaration or an argument. */
  method NextValue(fs: FuncState, nu: Numbers, e: Expr) returns (r: Result<()>)
    requires fs.Valid() && WellScoped(e, fs.nactvar)
    modifies fs
    ensures r.Success? ==>
              && fs.Valid() && Passed(old(fs.S()), fs.S()) && fs.freereg == old(fs.freereg) + 1
              && Stored(nu, old(fs.S()), e, fs.S(), old(fs.freereg))
    ensures r.Failure? ==> fs.AtLimit(r.error)
  {
    ghost var st0 := fs.S();
    ghost var T, F: seq<int>;
    var d;
    d, T, F := Expression(fs, nu, e);
    if d.Failure? { return Failure(d.error); }
    ghost var st1 := fs.S();
    var _ :- fs.LuaKExp2NextReg(d.value, T, F);
    StoredFrom(nu, st0, e, st1, d.value, T, F, fs.S(), st0.freereg);
    PassedStore(st0, st1, d.value, T, F, fs.S());
    r := Success(());
  }

  lemma {:induction false} EvalOnly(env: Env, k: int -> Value, e: Expr, R: Regs)
    ensures Eval(Env(k, env.eq, env.lt, env.le, env.arith, env.global), e, R) == Eval(env, e, R)
  {
    match e
    case ENot(e1) => EvalOnly(env, k, e1, R);
    case EAnd(e1, e2) => EvalOnly(env, k, e1, R); EvalOnly(env, k, e2, R);
    case EOr(e1, e2) => EvalOnly(env, k, e1, R); EvalOnly(env, k, e2, R);
    case ERel(_, e1, e2) => EvalOnly(env, k, e1, R); EvalOnly(env, k, e2, R);
    case EArith(_, e1, e2) => EvalOnly(env, k, e1, R); EvalOnly(env, k, e2, R);
    case _ =>
  }

  /** What the answer of a logical operator has to be: nil and false are the only false values, and the second
      operand counts only when the first does not decide. */
  ghost predicate ShortCircuits(env: Env, e: Expr, R: Regs, answer: Option<Value>) {
    match e
    case ENot(e1) =>
      (match Eval(env, e1, R)
       case None => answer == None
       case Some(v) => answer == Some(Boolean(v == Nil || v == Boolean(false))))
    case EAnd(e1, e2) =>
      (match Eval(env, e1, R)
       case None => answer == None
       case Some(v) => answer == if v == Nil || v == Boolean(false) then Some(v) else Eval(env, e2, R))
    case EOr(e1, e2) =>
      (match Eval(env, e1, R)
       case None => answer == None
       case Some(v) => answer == if v == Nil || v == Boolean(false) then Eval(env, e2, R) else Some(v))
    case _ => true
  }

  lemma AnswersRightly(env: Env, e: Expr, R: Regs)
    ensures ShortCircuits(env, e, R, Eval(env, e, R))
  {
  }

  /** Compiling an expression in a fresh function and running the code gives the value of the expression.  It
      fails only when the code, the registers or the constants of the function have reached their limit. */
  method CompileAndRun(nu: Numbers, env: Env, e: Expr, nactvar: nat, R0: Regs) returns (r: Result<Option<Value>>, fs: FuncState)
    requires nactvar < LUAI_MAXSTACK && WellScoped(e, nactvar) && SameNumbers(env, nu)
    requires forall i :: nactvar <= i < 256 ==> R0[i] == Nil
    ensures r.Success? ==> r.value == Eval(env, e, R0) && ShortCircuits(env, e, R0, r.value)
    ensures r.Failure? ==> fs.AtLimit(r.error)
  {
    fs := new FuncState(nactvar);
    ghost var st0 := fs.S();
    var _ :- NextValue(fs, nu, e);
    ghost var st1 := fs.S();
    var _ :- fs.DischargeJpc();
    var k := fs.k;
    var machine := Env(i => if 0 <= i < |k| then k[i] else Nil, env.eq, env.lt, env.le, env.arith, env.global);
    EvalOnly(env, machine.k, e, R0);
    ghost var x := At(machine, 0, R0);
    assert StoredAt(x, nu, st0, e, st1, nactvar);
    assert SameNumbers(machine, nu) by {
      forall op, a, b ensures SameNumberAt(machine, nu, op, a, b) {
        assert SameNumberAt(env, nu, op, a, b);
      }
    }
    assert Seen(x, nu, st0, st1.k);
    DischargeRun(machine, st1.c, fs.C(), 0, R0);
    assert fs.C() == Code(fs.code, {}, {});
    var o := Execute(machine, fs.code, 0, R0);
    r := Success(if o.Fall? then Some(Reg(o.R, nactvar)) else None);
    AnswersRightly(env, e, R0);
  }
}
