/** The part of the virtual machine (lvm.c) that expression code uses, and the language it comes from. */
module Vm {
  import opened LuaObject

  datatype Option<+T> = None | Some(value: T)

  datatype CmpOp = OpEq | OpLt | OpLe
  datatype ArithOp = OpAdd | OpSub | OpMul | OpDiv | OpMod | OpPow

  /** Decoded instructions.  `Other` is any instruction expression code does not contain. */
  datatype Instr =
    | Move(a: int, b: int)
    | LoadK(a: int, bx: int)
    | LoadBool(a: int, b: int, c: int)
    | LoadNil(a: int, b: int)
    | GetGlobal(a: int, bx: int)
    | Arith(op: ArithOp, a: int, b: int, c: int)
    | Not(a: int, b: int)
    | Jmp(sbx: int)
    | Cmp(cmp: CmpOp, a: int, b: int, c: int)
    | Test(a: int, c: int)
    | TestSet(a: int, b: int, c: int)
    | Other(id: int)

  const NO_REG: int := 255
  const BITRK: int := 256
  const MAXINDEXRK: int := 255

  /** What expressions depend on besides registers: the constants, the comparisons and the arithmetic of
      the machine (metamethods included; None is an error) and the table of globals. */
  datatype Env = Env(
    k: int -> Value,
    eq: (Value, Value) -> Option<bool>,
    lt: (Value, Value) -> Option<bool>,
    le: (Value, Value) -> Option<bool>,
    arith: (ArithOp, Value, Value) -> Option<Value>,
    global: Value -> Option<Value>)

  type Regs = r: seq<Value> | |r| == 256 witness seq(256, _ => Nil)

  function Reg(R: Regs, i: int): Value {
    if 0 <= i < 256 then R[i] else Nil
  }

  function SetReg(R: Regs, i: int, v: Value): Regs {
    if 0 <= i < 256 then R[i := v] else R
  }

  predicate IsFalse(v: Value) {
    v == Nil || v == Boolean(false)
  }

  function Int(b: bool): int {
    if b then 1 else 0
  }

  /** RK(x): a constant when the bit BITRK is set, a register otherwise. */
  function RK(env: Env, R: Regs, x: int): Value {
    if x >= BITRK then env.k(x - BITRK) else Reg(R, x)
  }

  function Compare(env: Env, op: CmpOp, x: Value, y: Value): Option<bool> {
    match op
    case OpEq => env.eq(x, y)
    case OpLt => env.lt(x, y)
    case OpLe => env.le(x, y)
  }

  /** LOADNIL: from B down to A, at least once. */
  function NilRange(R: Regs, a: int, b: int): Regs
    decreases if b > a then b - a else 0
  {
    if b > a then NilRange(SetReg(R, b, Nil), a, b - 1) else SetReg(R, b, Nil)
  }

  /** The value an instruction leaves in its register A. */
  function InstrValue(env: Env, i: Instr, R: Regs): Option<Value> {
    match i
    case Move(_, b) => Some(Reg(R, b))
    case LoadK(_, bx) => Some(env.k(bx))
    case GetGlobal(_, bx) => env.global(env.k(bx))
    case Arith(op, _, b, c) => env.arith(op, RK(env, R, b), RK(env, R, c))
    case Not(_, b) => Some(Boolean(IsFalse(Reg(R, b))))
    case _ => None
  }

  predicate IsValueInstr(i: Instr) {
    i.Move? || i.LoadK? || i.GetGlobal? || i.Arith? || i.Not?
  }

  /** Whether a test instruction goes on to the jump that follows it; None is an error. */
  function TestResult(env: Env, i: Instr, R: Regs): Option<bool>
    requires IsTest(i)
  {
    match i
    case Cmp(op, a, b, c) =>
      (match Compare(env, op, RK(env, R, b), RK(env, R, c))
       case None => None
       case Some(r) => Some(Int(r) == a))
    case Test(a, c) => Some(Int(IsFalse(Reg(R, a))) != c)
    case TestSet(_, b, c) => Some(Int(IsFalse(Reg(R, b))) != c)
  }

  /** testTMode */
  predicate IsTest(i: Instr) {
    i.Cmp? || i.Test? || i.TestSet?
  }

  // ---------------------------------------------------------------------------
  // Running code with pending jumps
  // ---------------------------------------------------------------------------

  /** How a run over a piece of code ends: it falls off the end, leaves through a pending jump, raises an
      error, or does something no finished expression code does. */
  datatype Outcome = Fall(R: Regs) | Exit(p: int, R: Regs) | Error | Stuck

  /** Code under construction: jumps in `pend` have no target yet; those in `here` are to go to the next
      instruction that will be coded, and so count as falling off the end. */
  datatype Code = Code(code: seq<Instr>, pend: set<int>, here: set<int>)

  /** The jump p is controlled by a test that also sets a register. */
  predicate Controlled(code: seq<Instr>, p: int) {
    1 <= p < |code| && code[p - 1].TestSet?
  }

  ghost function Run(env: Env, s: Code, pc: int, R: Regs): Outcome
    decreases |s.code| - pc, 1
  {
    if pc == |s.code| then Fall(R)
    else if !(0 <= pc < |s.code|) then Stuck
    else
      var i := s.code[pc];
      if i.Jmp? then
        if Controlled(s.code, pc) then Stuck else Follow(env, s, pc, R)
      else if IsTest(i) then
        match TestResult(env, i, R)
        case None => Error
        case Some(false) => Run(env, s, pc + 2, R)
        case Some(true) =>
          if !i.TestSet? || pc + 1 in s.pend || pc + 1 in s.here then Follow(env, s, pc + 1, R)
          else if i.a == NO_REG then Stuck
          else Follow(env, s, pc + 1, SetReg(R, i.a, Reg(R, i.b)))
      else if IsValueInstr(i) then
        match InstrValue(env, i, R)
        case None => Error
        case Some(v) => Run(env, s, pc + 1, SetReg(R, i.a, v))
      else if i.LoadBool? then
        Run(env, s, if i.c != 0 then pc + 2 else pc + 1, SetReg(R, i.a, Boolean(i.b != 0)))
      else if i.LoadNil? then Run(env, s, pc + 1, NilRange(R, i.a, i.b))
      else Stuck
  }

  /** Taking the jump at p. */
  ghost function Follow(env: Env, s: Code, p: int, R: Regs): Outcome
    decreases |s.code| - p, 0
  {
    if !(0 <= p < |s.code|) || !s.code[p].Jmp? then Stuck
    else if p in s.pend then Exit(p, R)
    else if p in s.here then Fall(R)
    else if s.code[p].sbx < 0 then Stuck
    else Run(env, s, p + 1 + s.code[p].sbx, R)
  }

  /** The interpreter loop over finished code (luaV_execute): a test that holds takes the offset of the
      jump after it and skips over that jump. */
  method Execute(env: Env, code: seq<Instr>, start: int, R0: Regs) returns (r: Outcome)
    requires 0 <= start <= |code| && Run(env, Code(code, {}, {}), start, R0) != Stuck
    ensures r == Run(env, Code(code, {}, {}), start, R0)
  {
    var pc, R := start, R0;
    ghost var s := Code(code, {}, {});
    while pc != |code|
      invariant Run(env, s, pc, R) == Run(env, s, start, R0)
      decreases |code| - pc
    {
      var i := code[pc];
      pc := pc + 1;
      match i {
        case Jmp(sbx) => pc := pc + sbx;
        case LoadBool(a, b, c) =>
          R := SetReg(R, a, Boolean(b != 0));
          if c != 0 { pc := pc + 1; }
        case LoadNil(a, b) => R := NilRange(R, a, b);
        case Cmp(op, a, b, c) =>
          var res := Compare(env, op, RK(env, R, b), RK(env, R, c));
          if res.None? { return Error; }
          if Int(res.value) == a { pc := pc + code[pc].sbx; }
          pc := pc + 1;
        case Test(a, c) =>
          if Int(IsFalse(Reg(R, a))) != c { pc := pc + code[pc].sbx; }
          pc := pc + 1;
        case TestSet(a, b, c) =>
          if Int(IsFalse(Reg(R, b))) != c {
            R := SetReg(R, a, Reg(R, b));
            pc := pc + code[pc].sbx;
          }
          pc := pc + 1;
        case Move(a, b) => R := SetReg(R, a, Reg(R, b));
        case LoadK(a, bx) => R := SetReg(R, a, env.k(bx));
        case Not(a, b) => R := SetReg(R, a, Boolean(IsFalse(Reg(R, b))));
        case GetGlobal(a, bx) =>
          var v := env.global(env.k(bx));
          if v.None? { return Error; }
          R := SetReg(R, a, v.value);
        case Arith(op, a, b, c) =>
          var v := env.arith(op, RK(env, R, b), RK(env, R, c));
          if v.None? { return Error; }
          R := SetReg(R, a, v.value);
        case Other(_) => return Error;
      }
    }
    r := Fall(R);
  }

  // ---------------------------------------------------------------------------
  // Expressions (Lua 5.1 Reference Manual, section 2.5)
  // ---------------------------------------------------------------------------

  datatype RelOp = EQ | NE | LT | LE | GT | GE

  datatype Expr =
    | ENil
    | ETrue
    | EFalse
    | ENumber(n: Value)
    | EString(s: Value)
    | ELocal(r: nat)
    | EGlobal(name: Value)
    | ENot(e: Expr)
    | EAnd(e1: Expr, e2: Expr)
    | EOr(e1: Expr, e2: Expr)
    | ERel(rel: RelOp, e1: Expr, e2: Expr)
    | EArith(op: ArithOp, e1: Expr, e2: Expr)

  /** a > b is b < a; a ~= b is not (a == b). */
  function Relate(env: Env, rel: RelOp, x: Value, y: Value): Option<bool> {
    match rel
    case EQ => env.eq(x, y)
    case NE => (match env.eq(x, y) case None => None case Some(b) => Some(!b))
    case LT => env.lt(x, y)
    case LE => env.le(x, y)
    case GT => env.lt(y, x)
    case GE => env.le(y, x)
  }

  /** The value of an expression; `and` and `or` evaluate their second operand only when needed and give
      one of the operand values.  None is an error, and errors stop the evaluation. */
  function Eval(env: Env, e: Expr, R: Regs): Option<Value> {
    match e
    case ENil => Some(Nil)
    case ETrue => Some(Boolean(true))
    case EFalse => Some(Boolean(false))
    case ENumber(n) => Some(n)
    case EString(s) => Some(s)
    case ELocal(r) => Some(Reg(R, r))
    case EGlobal(name) => env.global(name)
    case ENot(e1) =>
      (match Eval(env, e1, R)
       case None => None
       case Some(v) => Some(Boolean(IsFalse(v))))
    case EAnd(e1, e2) =>
      (match Eval(env, e1, R)
       case None => None
       case Some(v) => if IsFalse(v) then Some(v) else Eval(env, e2, R))
    case EOr(e1, e2) =>
      (match Eval(env, e1, R)
       case None => None
       case Some(v) => if IsFalse(v) then Eval(env, e2, R) else Some(v))
    case ERel(rel, e1, e2) =>
      (match Eval(env, e1, R)
       case None => None
       case Some(x) =>
         match Eval(env, e2, R)
         case None => None
         case Some(y) =>
           match Relate(env, rel, x, y)
           case None => None
           case Some(b) => Some(Boolean(b)))
    case EArith(op, e1, e2) =>
      (match Eval(env, e1, R)
       case None => None
       case Some(x) =>
         match Eval(env, e2, R)
         case None => None
         case Some(y) => env.arith(op, x, y))
  }

  /** Only active locals occur, numbers and strings are constants, and no constant is nil. */
  predicate WellScoped(e: Expr, nactvar: nat) {
    match e
    case ELocal(r) => r < nactvar
    case ENumber(n) => n.Integer? || n.Float?
    case EString(s) => s.Str?
    case EGlobal(s) => s.Str?
    case ENot(e1) => WellScoped(e1, nactvar)
    case EAnd(e1, e2) => WellScoped(e1, nactvar) && WellScoped(e2, nactvar)
    case EOr(e1, e2) => WellScoped(e1, nactvar) && WellScoped(e2, nactvar)
    case ERel(_, e1, e2) => WellScoped(e1, nactvar) && WellScoped(e2, nactvar)
    case EArith(_, e1, e2) => WellScoped(e1, nactvar) && WellScoped(e2, nactvar)
    case _ => true
  }

  /** Two register files agree below n. */
  ghost predicate Agree(R: Regs, R': Regs, n: int) {
    forall i :: 0 <= i < n && i < 256 ==> R'[i] == R[i]
  }

  /** The value of an expression depends on the active locals only. */
  lemma {:induction false} EvalAgree(env: Env, e: Expr, R: Regs, R': Regs, nactvar: nat)
    requires WellScoped(e, nactvar) && Agree(R, R', nactvar)
    ensures Eval(env, e, R') == Eval(env, e, R)
  {
    match e
    case ENot(e1) => EvalAgree(env, e1, R, R', nactvar);
    case EAnd(e1, e2) => EvalAgree(env, e1, R, R', nactvar); EvalAgree(env, e2, R, R', nactvar);
    case EOr(e1, e2) => EvalAgree(env, e1, R, R', nactvar); EvalAgree(env, e2, R, R', nactvar);
    case ERel(_, e1, e2) => EvalAgree(env, e1, R, R', nactvar); EvalAgree(env, e2, R, R', nactvar);
    case EArith(_, e1, e2) => EvalAgree(env, e1, R, R', nactvar); EvalAgree(env, e2, R, R', nactvar);
    case _ =>
  }

  // ---------------------------------------------------------------------------
  // Truth (Lua 5.1 Reference Manual, sections 2.4.4 and 2.5.3): only nil and false are false
  // ---------------------------------------------------------------------------

  lemma NotMeaning(env: Env, e: Expr, R: Regs, v: Value)
    requires Eval(env, e, R) == Some(v)
    ensures Eval(env, ENot(e), R) == Some(Boolean(v == Nil || v == Boolean(false)))
  {
  }

  lemma AndMeaning(env: Env, e1: Expr, e2: Expr, R: Regs, v: Value)
    requires Eval(env, e1, R) == Some(v)
    ensures Eval(env, EAnd(e1, e2), R) == if v == Nil || v == Boolean(false) then Some(v) else Eval(env, e2, R)
  {
  }

  lemma OrMeaning(env: Env, e1: Expr, e2: Expr, R: Regs, v: Value)
    requires Eval(env, e1, R) == Some(v)
    ensures Eval(env, EOr(e1, e2), R) == if v == Nil || v == Boolean(false) then Eval(env, e2, R) else Some(v)
  {
  }

  /** An error in the first operand is an error of the whole. */
  lemma ErrorMeaning(env: Env, e1: Expr, e2: Expr, R: Regs)
    requires Eval(env, e1, R) == None
    ensures Eval(env, ENot(e1), R) == None && Eval(env, EAnd(e1, e2), R) == None && Eval(env, EOr(e1, e2), R) == None
  {
  }

  /** A test lets its jump be taken when its value has the truth it asks for: any C but 1 lets nil and false
      through, any C but 0 all other values. */
  predicate Passes(v: Value, c: int) {
    if v == Nil || v == Boolean(false) then c != 1 else c != 0
  }

  /** OP_TEST, OP_TESTSET and OP_NOT in terms of the values themselves. */
  lemma TestRuns(env: Env, s: Code, pc: nat, R: Regs)
    requires pc < |s.code|
    ensures s.code[pc].Test? ==>
              Run(env, s, pc, R) == if Passes(Reg(R, s.code[pc].a), s.code[pc].c) then Follow(env, s, pc + 1, R) else Run(env, s, pc + 2, R)
    ensures s.code[pc].TestSet? && s.code[pc].a != NO_REG && pc + 1 !in s.pend && pc + 1 !in s.here ==>
              Run(env, s, pc, R) ==
                if Passes(Reg(R, s.code[pc].b), s.code[pc].c)
                then Follow(env, s, pc + 1, SetReg(R, s.code[pc].a, Reg(R, s.code[pc].b))) else Run(env, s, pc + 2, R)
    ensures s.code[pc].Not? ==>
              var v := Reg(R, s.code[pc].b);
              Run(env, s, pc, R) == Run(env, s, pc + 1, SetReg(R, s.code[pc].a, Boolean(v == Nil || v == Boolean(false))))
  {
  }
}
