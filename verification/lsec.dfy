/** The taint machine: the setters of lsec.h and lmanip.h, and the instructions of lvm.c that use them. */
module LuaTaint {
  datatype Option<+T> = None | Some(value: T)

  /** A taint is the name of the code it comes from. */
  type Taint = Option<nat>

  datatype Data = Nil | Bool(b: bool) | Num(n: int) | Str(s: nat) | Tab(t: nat) | Fun(c: nat)

  /** A value with its taint.  The program has no `deps`: they record which tainted sources the value was moved
      or computed from, and STACK if it was written while the stack was tainted. */
  datatype TValue = TValue(data: Data, taint: Taint, deps: set<nat>)

  const STACK: nat := 0
  const MAXTAGLOOP: nat := 100
  const EMPTY := TValue(Nil, None, {})

  datatype Upval = Open(slot: nat) | Shut(v: TValue)
  datatype Closure = Closure(taint: Taint, ups: seq<nat>, proto: nat, env: nat)
  datatype Proto = Proto(k: seq<TValue>, numparams: nat, vararg: bool, maxstack: nat)

  /** What happens after a call: the caller's code goes on, or the C code that called a metamethod or an
      iterator does. */
  datatype Cont = Plain | Result(res: nat) | Discard | Iterate(cb: nat)

  /** A caller that waits. */
  datatype Frame = Frame(func: nat, base: nat, top: nat, savedtaint: Taint, nresults: int, cont: Cont)

  const LUA_MULTRET: int := -1
  const TM_INDEX := Str(0)
  const TM_NEWINDEX := Str(1)
  const TM_CALL := Str(2)

  /** An operand of an instruction: a register, a constant, or the environment of the closure. */
  datatype Operand = Reg(r: nat) | Const(k: nat) | Env

  datatype Op =
    | Move(a: nat, b: nat)
    | LoadK(a: nat, k: nat)
    | LoadBool(a: nat, value: bool)
    | LoadNil(a: nat, b: nat)
    | GetUpval(a: nat, b: nat)
    | SetUpval(a: nat, b: nat)
    | GetTable(a: nat, t: Operand, key: Operand)
    | SetTable(t: Operand, key: Operand, v: Operand)
    | NewTable(a: nat)
    | SelfOp(a: nat, b: nat, key: Operand)
    | Compute(a: nat, d: Data, operands: seq<nat>)     // arithmetic on numbers, not, length
    | BinTM(a: nat, left: Operand, right: Operand, event: Data)
    | Concat(a: nat, b: nat, c: nat, d: Data)
    | Call(a: nat, b: nat, c: nat)
    | TailCall(a: nat, b: nat)
    | Return(a: nat, b: nat)
    | ForLoop(a: nat, d: Data)
    | ForPrep(a: nat, d: Data)
    | TForLoop(a: nat, c: nat)
    | SetList(a: nat, n: nat, first: int)
    | Close(a: nat)
    | MakeClosure(a: nat, proto: nat, captures: seq<(bool, nat)>)
    | Vararg(a: nat, b: nat)

  datatype TaintState = TaintState(rd: bool, wr: bool, stacktaint: Taint, newgctaint: Taint, newcltaint: Taint)

  /** What depends on a tainted source is tainted. */
  predicate Honest(v: TValue) {
    v.deps != {} ==> v.taint.Some?
  }

  /** w is v moved into a slot of a stack with taint st: the value and its sources arrive, a tainted value
      keeps its taint, a clean one takes that of the stack. */
  predicate Flows(v: TValue, w: TValue, st: Taint) {
    && w.data == v.data && v.deps <= w.deps && (st.Some? ==> STACK in w.deps)
    && w.taint == if v.taint.Some? then v.taint else st
  }

  /** The value and its sources arrive. */
  predicate Carries(v: TValue, w: TValue) {
    w.data == v.data && v.deps <= w.deps
  }

  function SlotIn(s: seq<TValue>, i: nat): TValue {
    if i < |s| then s[i] else EMPTY
  }

  /** The results of a call, from `first` up to `end`, have arrived at `res`, no more of them than wanted. */
  ghost predicate Delivered(s: seq<TValue>, t: seq<TValue>, first: nat, end: nat, res: nat, wanted: int) {
    forall j: nat :: first <= j < end && (wanted < 0 || j < first + wanted) ==>
                       Carries(SlotIn(s, j), SlotIn(t, j - first + res))
  }

  /** Nil is put where a list of values was too short. */
  ghost predicate NilSlots(t: seq<TValue>, from: int, to: int) {
    forall j: nat :: from <= j < to ==> SlotIn(t, j).data == Nil
  }

  ghost predicate SameBelow(s: seq<TValue>, t: seq<TValue>, f: nat) {
    forall j: nat :: j < f ==> SlotIn(t, j) == SlotIn(s, j)
  }

  ghost predicate SameBut(s: seq<TValue>, t: seq<TValue>, i: nat) {
    forall j: nat :: j != i ==> SlotIn(t, j) == SlotIn(s, j)
  }

  lemma DeliveredVia(s0: seq<TValue>, s1: seq<TValue>, s2: seq<TValue>, first: nat, end: nat, mid: nat, skip: nat, end1: nat, res: nat, wanted: int)
    requires Delivered(s0, s1, first, end, mid, -1) && Delivered(s1, s2, mid + skip, end1, res, wanted) && end1 >= end - first + mid
    ensures Delivered(s0, s2, first + skip, end, res, wanted)
  {
    forall j: nat | first + skip <= j < end && (wanted < 0 || j < first + skip + wanted)
      ensures Carries(SlotIn(s0, j), SlotIn(s2, j - (first + skip) + res))
    {
      var k := j - first + mid;
      assert Carries(SlotIn(s0, j), SlotIn(s1, k)) && Carries(SlotIn(s1, k), SlotIn(s2, k - (mid + skip) + res));
    }
  }

  /** Slots above the arguments are cleared. */
  lemma Cleared(s0: seq<TValue>, s1: seq<TValue>, s2: seq<TValue>, f: nat, top0: nat, base: nat, top1: nat, p: Proto)
    requires top0 > f && base > f && SameBelow(s0, s1, f + 1) && SameBelow(s1, s2, top1) && NilSlots(s2, top1, base + p.maxstack)
    requires if p.vararg then Delivered(s0, s1, f + 1, top0, base, p.numparams) && top1 == base + p.numparams
                              && NilSlots(s1, base + top0 - f - 1, base + p.numparams)
             else s1 == s0 && base == f + 1 && top1 == if top0 > base + p.numparams then base + p.numparams else top0
    ensures SameBelow(s0, s2, f + 1) && Delivered(s0, s2, f + 1, top0, base, p.numparams)
    ensures p.numparams <= p.maxstack ==> NilSlots(s2, base + top0 - f - 1, base + p.numparams)
  {
    forall j: nat | f + 1 <= j < top0 && j < f + 1 + p.numparams ensures Carries(SlotIn(s0, j), SlotIn(s2, j - (f + 1) + base)) {
      assert p.vararg ==> Carries(SlotIn(s0, j), SlotIn(s1, j - (f + 1) + base));
    }
    if p.numparams <= p.maxstack {
      forall j: nat | base + top0 - f - 1 <= j < base + p.numparams ensures SlotIn(s2, j).data == Nil {}
    }
  }

  /** The keys of the fields that a list of n values from first + 1 on fills. */
  ghost predicate ListedAt(k: (nat, Data), t: nat, first: int, n: nat) {
    k.0 == t && k.1.Num? && first + 1 <= k.1.n <= first + n
  }

  type Fields = map<(nat, Data), TValue>

  ghost predicate ElementAt(m: Fields, t: nat, first: int, s: seq<TValue>, at: nat, i: nat) {
    (t, Num(first + i)) in m && m[(t, Num(first + i))] == SlotIn(s, at + i)
  }

  ghost predicate OthersSame(m: Fields, m1: Fields, t: nat, first: int, n: nat) {
    forall k :: !ListedAt(k, t, first, n) ==> (k in m1 <==> k in m) && (k in m1 ==> m1[k] == m[k])
  }

  /** The n values above a slot are the elements of a table, and all other fields are as they were. */
  ghost predicate Filled(m: Fields, m1: Fields, t: nat, first: int, n: nat, s: seq<TValue>, at: nat) {
    FilledFrom(m, m1, t, first, 0, n, s, at)
  }

  /** The same for the values after the i-th. */
  ghost predicate FilledFrom(m: Fields, m1: Fields, t: nat, first: int, i: nat, n: nat, s: seq<TValue>, at: nat) {
    (forall j: nat :: i < j <= n ==> ElementAt(m1, t, first, s, at, j)) && OthersSame(m, m1, t, first, n)
  }

  lemma FillOne(m: Fields, m1: Fields, t: nat, first: int, i: nat, n: nat, s: seq<TValue>, at: nat)
    requires FilledFrom(m, m1, t, first, i, n, s, at) && 0 < i <= n
    ensures FilledFrom(m, m1[(t, Num(first + i)) := SlotIn(s, at + i)], t, first, i - 1, n, s, at)
  {
    var m2 := m1[(t, Num(first + i)) := SlotIn(s, at + i)];
    forall j: nat | i - 1 < j <= n ensures ElementAt(m2, t, first, s, at, j) {
      assert j > i ==> ElementAt(m1, t, first, s, at, j);
    }
  }

  /** How a table access ends: at a field, at a function that is called with the object reached, or in an error. */
  datatype Access = Field(v: TValue) | Place(t: nat) | Handler(tm: TValue, obj: TValue) | Failed

  function FieldIn(m: Fields, t: nat, key: Data): TValue {
    if (t, key) in m then m[(t, key)] else EMPTY
  }

  /** The tables with their metatables, and the metatables of the other types. */
  datatype Heap = Heap(fields: Fields, metatable: map<nat, nat>, basicmt: map<nat, nat>) {

    function MetamethodOf(v: TValue, event: Data): TValue {
      match v.data
      case Tab(t) => if t in metatable then FieldIn(fields, metatable[t], event) else EMPTY
      case Nil => Basic(0, event)
      case Bool(_) => Basic(1, event)
      case Num(_) => Basic(3, event)
      case Str(_) => Basic(4, event)
      case Fun(_) => Basic(6, event)
    }

    function Basic(tag: nat, event: Data): TValue {
      if tag in basicmt then FieldIn(fields, basicmt[tag], event) else EMPTY
    }

    /** What indexing an object comes to: along the chain of __index objects, the first table that has the key or
        has no metamethod, or the first function. */
    function Index(t: TValue, key: Data, n: nat): Access
      decreases n
    {
      if n == 0 then Failed
      else
        var tm := MetamethodOf(t, TM_INDEX);
        if t.data.Tab? && (FieldIn(fields, t.data.t, key).data != Nil || tm.data == Nil) then Field(FieldIn(fields, t.data.t, key))
        else if tm.data == Nil then Failed
        else if tm.data.Fun? then Handler(tm, t)
        else Index(tm, key, n - 1)
    }

    /** The same for assignments. */
    function NewIndex(t: TValue, key: Data, n: nat): Access
      decreases n
    {
      if n == 0 || (t.data.Tab? && key == Nil) then Failed
      else
        var tm := MetamethodOf(t, TM_NEWINDEX);
        if t.data.Tab? && (FieldIn(fields, t.data.t, key).data != Nil || tm.data == Nil) then Place(t.data.t)
        else if tm.data == Nil then Failed
        else if tm.data.Fun? then Handler(tm, t)
        else NewIndex(tm, key, n - 1)
    }

    /** An object on the chain of an assignment comes from tainted code. */
    predicate TaintedHop(t: TValue, key: Data, n: nat)
      decreases n
    {
      n > 0 && !NewIndex(t, key, 1).Place? && MetamethodOf(t, TM_NEWINDEX).data != Nil && !(t.data.Tab? && key == Nil)
      && (MetamethodOf(t, TM_NEWINDEX).taint.Some?
          || (!MetamethodOf(t, TM_NEWINDEX).data.Fun? && TaintedHop(MetamethodOf(t, TM_NEWINDEX), key, n - 1)))
    }

    /** The objects of a chain: each but the last lacks the key and has the next one as its metamethod. */
    ghost predicate LinkAt(chain: seq<TValue>, event: Data, key: Data, i: int) {
      0 <= i < |chain| - 1 ==>
        && (chain[i].data.Tab? ==> FieldIn(fields, chain[i].data.t, key).data == Nil)
        && chain[i + 1] == MetamethodOf(chain[i], event) && chain[i + 1].data != Nil && !chain[i + 1].data.Fun?
    }

    /** The chain ends at a table that has the key, or that no metamethod speaks for. */
    ghost predicate ChainTo(chain: seq<TValue>, event: Data, t: TValue, key: Data, h: nat) {
      && 0 < |chain| && chain[0] == t && (forall i :: LinkAt(chain, event, key, i))
      && var last := chain[|chain| - 1];
         last.data == Tab(h) && (FieldIn(fields, h, key).data != Nil || MetamethodOf(last, event).data == Nil)
    }

    /** The chain ends at an object that lacks the key and has a function as its metamethod. */
    ghost predicate ChainCalls(chain: seq<TValue>, event: Data, t: TValue, key: Data, tm: TValue, obj: TValue) {
      && 0 < |chain| && chain[0] == t && (forall i :: LinkAt(chain, event, key, i)) && chain[|chain| - 1] == obj
      && (obj.data.Tab? ==> FieldIn(fields, obj.data.t, key).data == Nil) && tm == MetamethodOf(obj, event) && tm.data.Fun?
    }

    /** Where a chain that ends at a table, or calls a function, leads; `newindex` tells assignments. */
    ghost predicate Leads(chain: seq<TValue>, newindex: bool, t: TValue, key: Data, a: Access) {
      var event := if newindex then TM_NEWINDEX else TM_INDEX;
      match a
      case Field(v) => !newindex && exists h: nat :: ChainTo(chain, event, t, key, h) && v == FieldIn(fields, h, key)
      case Place(h) => newindex && ChainTo(chain, event, t, key, h)
      case Handler(tm, obj) => ChainCalls(chain, event, t, key, tm, obj)
      case Failed => false
    }

    function Accessed(newindex: bool, t: TValue, key: Data, n: nat): Access {
      if newindex then NewIndex(t, key, n) else Index(t, key, n)
    }

    /** An access ends somewhere exactly if a chain of at most n objects leads there; an assignment to a table needs a
        key. */
    lemma {:induction false} AccessFollows(newindex: bool, t: TValue, key: Data, n: nat, a: Access)
      requires a != Failed && (newindex ==> key != Nil)
      ensures Accessed(newindex, t, key, n) == a <==> exists chain :: |chain| <= n && Leads(chain, newindex, t, key, a)
    {
      if Accessed(newindex, t, key, n) == a {
        var chain := AccessChain(newindex, t, key, n, a);
      }
      forall chain | |chain| <= n && Leads(chain, newindex, t, key, a) ensures Accessed(newindex, t, key, n) == a {
        ChainAccess(chain, newindex, t, key, n, a);
      }
    }

    lemma OneRound(newindex: bool, t: TValue, key: Data, n: nat)
      requires n > 0 && (newindex ==> key != Nil)
      ensures var event := if newindex then TM_NEWINDEX else TM_INDEX;
              var tm := MetamethodOf(t, event);
              Accessed(newindex, t, key, n) ==
                if t.data.Tab? && (FieldIn(fields, t.data.t, key).data != Nil || tm.data == Nil)
                then (if newindex then Place(t.data.t) else Field(FieldIn(fields, t.data.t, key)))
                else if tm.data == Nil then Failed
                else if tm.data.Fun? then Handler(tm, t)
                else Accessed(newindex, tm, key, n - 1)
    {
      hide MetamethodOf;
    }

    lemma {:induction false} AccessChain(newindex: bool, t: TValue, key: Data, n: nat, a: Access) returns (chain: seq<TValue>)
      requires a != Failed && (newindex ==> key != Nil) && Accessed(newindex, t, key, n) == a
      ensures |chain| <= n && Leads(chain, newindex, t, key, a)
      decreases n
    {
      hide MetamethodOf, Index, NewIndex;
      var event := if newindex then TM_NEWINDEX else TM_INDEX;
      assert n > 0 by { NoRounds(newindex, t, key); }
      OneRound(newindex, t, key, n);
      var tm := MetamethodOf(t, event);
      if (t.data.Tab? && (FieldIn(fields, t.data.t, key).data != Nil || tm.data == Nil)) || tm.data.Fun? {
        chain := [t];
        if !(t.data.Tab? && (FieldIn(fields, t.data.t, key).data != Nil || tm.data == Nil)) {
          assert ChainCalls(chain, event, t, key, tm, t);
        } else {
          assert ChainTo(chain, event, t, key, t.data.t);
        }
      } else {
        var rest := AccessChain(newindex, tm, key, n - 1, a);
        chain := [t] + rest;
        LeadsFrom(rest, newindex, t, tm, key, a);
      }
    }

    /** Only the first object matters to what it comes to, as long as the chain goes on. */
    lemma IndexSame(t: TValue, t1: TValue, key: Data, n: nat)
      requires t.data == t1.data
      ensures match Index(t, key, n)
              case Handler(tm, o) => Index(t1, key, n) == Handler(tm, if o == t then t1 else o) || Index(t1, key, n) == Handler(tm, o)
              case r => Index(t1, key, n) == r
    {
    }

    lemma NoAssignment(t: TValue, key: Data)
      ensures NewIndex(t, key, 0) == Failed && !TaintedHop(t, key, 0)
    {
    }

    lemma AccessKinds(t: TValue, key: Data, n: nat)
      ensures !Index(t, key, n).Place? && !NewIndex(t, key, n).Field?
      decreases n
    {
      hide MetamethodOf;
    }

    /** One round of luaV_settable. */
    lemma AssignRound(t: TValue, key: Data, n: nat)
      requires n > 0
      ensures var tm := MetamethodOf(t, TM_NEWINDEX);
              var found := t.data.Tab? && (FieldIn(fields, t.data.t, key).data != Nil || tm.data == Nil);
              var noKey := t.data.Tab? && key == Nil;
              && NewIndex(t, key, n) ==
                   (if noKey then Failed else if found then Place(t.data.t) else if tm.data == Nil then Failed
                    else if tm.data.Fun? then Handler(tm, t) else NewIndex(tm, key, n - 1))
              && (TaintedHop(t, key, n) <==>
                    !noKey && !found && tm.data != Nil && (tm.taint.Some? || (!tm.data.Fun? && TaintedHop(tm, key, n - 1))))
    {
      hide MetamethodOf;
    }

    lemma NoRounds(newindex: bool, t: TValue, key: Data)
      ensures Accessed(newindex, t, key, 0) == Failed
    {
    }

    lemma LeadsFrom(rest: seq<TValue>, newindex: bool, t: TValue, tm: TValue, key: Data, a: Access)
      requires Leads(rest, newindex, tm, key, a)
      requires tm == MetamethodOf(t, if newindex then TM_NEWINDEX else TM_INDEX) && tm.data != Nil && !tm.data.Fun?
      requires t.data.Tab? ==> FieldIn(fields, t.data.t, key).data == Nil
      ensures Leads([t] + rest, newindex, t, key, a)
    {
      hide MetamethodOf;
      var event := if newindex then TM_NEWINDEX else TM_INDEX;
      var chain := [t] + rest;
      forall i ensures LinkAt(chain, event, key, i) {
        assert LinkAt(rest, event, key, i - 1);
      }
      assert chain[|chain| - 1] == rest[|rest| - 1];
      if a.Field? {
        var h: nat :| ChainTo(rest, event, tm, key, h) && a.v == FieldIn(fields, h, key);
        assert ChainTo(chain, event, t, key, h);
      }
    }

    lemma LeadsOn(chain: seq<TValue>, newindex: bool, t: TValue, key: Data, a: Access)
      requires Leads(chain, newindex, t, key, a) && |chain| > 1
      ensures Leads(chain[1..], newindex, chain[1], key, a)
      ensures var event := if newindex then TM_NEWINDEX else TM_INDEX;
              && chain[1] == MetamethodOf(t, event) && chain[1].data != Nil && !chain[1].data.Fun?
              && (t.data.Tab? ==> FieldIn(fields, t.data.t, key).data == Nil)
    {
      hide MetamethodOf;
      var event := if newindex then TM_NEWINDEX else TM_INDEX;
      assert LinkAt(chain, event, key, 0);
      forall i ensures LinkAt(chain[1..], event, key, i) {
        assert LinkAt(chain, event, key, i + 1);
      }
      if a.Field? {
        var h: nat :| ChainTo(chain, event, t, key, h) && a.v == FieldIn(fields, h, key);
        assert ChainTo(chain[1..], event, chain[1], key, h);
      }
    }

    lemma {:induction false} ChainAccess(chain: seq<TValue>, newindex: bool, t: TValue, key: Data, n: nat, a: Access)
      requires (newindex ==> key != Nil) && |chain| <= n && Leads(chain, newindex, t, key, a)
      ensures Accessed(newindex, t, key, n) == a
      decreases n
    {
      hide MetamethodOf, Index, NewIndex;
      OneRound(newindex, t, key, n);
      if |chain| > 1 {
        LeadsOn(chain, newindex, t, key, a);
        ChainAccess(chain[1..], newindex, chain[1], key, n - 1, a);
      }
    }
  }

  /** The functions of a program. */
  datatype Program = Program(closures: map<nat, Closure>, protos: map<nat, Proto>) {

    predicate Knows(c: nat) {
      c in closures && closures[c].proto in protos
    }

    function ParamsOf(c: nat): nat {
      if Knows(c) then protos[closures[c].proto].numparams else 0
    }

    /** Enough slots for the parameters, as the checker of precompiled code asks for. */
    predicate RoomyFor(c: nat) {
      Knows(c) ==> protos[closures[c].proto].numparams <= protos[closures[c].proto].maxstack
    }
  }

  function RunningIn(s: seq<TValue>, func: nat): Option<nat> {
    if SlotIn(s, func).data.Fun? then Some(SlotIn(s, func).data.c) else None
  }

  /** How many parameters the running function takes. */
  function ParamsIn(s: seq<TValue>, func: nat, code: Program): nat {
    if RunningIn(s, func).Some? then code.ParamsOf(RunningIn(s, func).value) else 0
  }

  predicate RoomyIn(s: seq<TValue>, func: nat, code: Program) {
    RunningIn(s, func).Some? ==> code.RoomyFor(RunningIn(s, func).value)
  }

  /** How many extra arguments the running function has, below its base. */
  function ExtraIn(s: seq<TValue>, func: nat, base: nat, code: Program): nat {
    var n := ParamsIn(s, func, code);
    if base > func + n + 1 then base - func - n - 1 else 0
  }

  function UpvalIn(ups: map<nat, Upval>, s: seq<TValue>, u: nat): TValue {
    if u !in ups then EMPTY else match ups[u] case Open(slot) => SlotIn(s, slot) case Shut(v) => v
  }

  /** The upvalues from a level up are closed over the values of their slots. */
  function ClosedUps(ups: map<nat, Upval>, s: seq<TValue>, level: nat): map<nat, Upval> {
    map u | u in ups :: if ups[u].Open? && ups[u].slot >= level then Shut(SlotIn(s, ups[u].slot)) else ups[u]
  }

  /** What runs when a value is called: the function itself, or the one its __call names. */
  function CalleeIn(heap: Heap, code: Program, v: TValue): Option<nat> {
    var f := if v.data.Fun? then v else heap.MetamethodOf(v, TM_CALL);
    if f.data.Fun? && code.Knows(f.data.c) then Some(f.data.c) else None
  }

  lemma FunCallee(heap: Heap, code: Program, v: TValue)
    ensures v.data.Fun? ==> CalleeIn(heap, code, v) == if code.Knows(v.data.c) then Some(v.data.c) else None
  {
  }

  lemma SameCallee(heap: Heap, code: Program, v: TValue, w: TValue)
    requires v.data == w.data
    ensures CalleeIn(heap, code, v) == CalleeIn(heap, code, w)
  {
  }

  /** There is a number that a finite set lacks. */
  lemma FreshNumber(s: set<nat>)
    ensures exists n: nat :: n !in s
  {
    var n := Bound(s);
    assert n !in s;
  }

  lemma {:induction false} Bound(s: set<nat>) returns (n: nat)
    ensures forall i :: i in s ==> i < n
    decreases |s|
  {
    if s == {} {
      n := 0;
    } else {
      var i :| i in s;
      var m := Bound(s - {i});
      n := if m > i then m else i + 1;
      forall j | j in s ensures j < n {
        assert j == i || j in s - {i};
      }
    }
  }

  /** One moment of the machine. */
  datatype Machine = Machine(stacktaint: Taint, writetaint: Taint, fixedtaint: Taint, newgctaint: Taint, stack: seq<TValue>,
                             top: nat, base: nat, func: nat, frames: seq<Frame>, heap: Heap, objtaint: map<nat, Taint>,
                             ups: map<nat, Upval>, code: Program) {

    function Register(r: nat): TValue {
      SlotIn(stack, base + r)
    }

    function OperandValue(o: Operand): TValue {
      match o
      case Reg(r) => Register(r)
      case Const(k) =>
        (match RunningIn(stack, func)
         case None => EMPTY
         case Some(c) =>
           if code.Knows(c) && k < |code.protos[code.closures[c].proto].k| then code.protos[code.closures[c].proto].k[k] else EMPTY)
      case Env =>
        (match RunningIn(stack, func)
         case None => EMPTY
         case Some(c) =>
           if c in code.closures then TValue(Tab(code.closures[c].env), writetaint, if stacktaint.Some? then {STACK} else {}) else EMPTY)
    }

    /** The b-th upvalue of the running closure. */
    function UpvalAt(b: nat): Option<nat> {
      match RunningIn(stack, func)
      case None => None
      case Some(c) => if c in code.closures && b < |code.closures[c].ups| then Some(code.closures[c].ups[b]) else None
    }

    function Callee(v: TValue): Option<nat> {
      CalleeIn(heap, code, v)
    }
  }

  /** What the operands of the running closure are. */
  lemma OperandMeaning(m: Machine, c: nat, r: nat, k: nat, b: nat)
    requires m.func < |m.stack| && m.stack[m.func].data == Fun(c) && c in m.code.closures && m.code.closures[c].proto in m.code.protos
    ensures m.base + r < |m.stack| ==> m.OperandValue(Reg(r)) == m.stack[m.base + r]
    ensures var ks := m.code.protos[m.code.closures[c].proto].k; k < |ks| ==> m.OperandValue(Const(k)) == ks[k]
    ensures m.OperandValue(Env).data == Tab(m.code.closures[c].env) && m.OperandValue(Env).taint == m.writetaint
    ensures b < |m.code.closures[c].ups| ==> m.UpvalAt(b) == Some(m.code.closures[c].ups[b])
  {
  }

  /** Values of one type share their metamethods, and types have none in common, tables apart. */
  lemma MetatablesApart(v: TValue, w: TValue, event: Data, tm: TValue, h: Heap)
    requires !v.data.Tab? && !w.data.Tab? && tm.data != Nil
    ensures SameType(v.data, w.data) ==> h.MetamethodOf(v, event) == h.MetamethodOf(w, event)
    ensures !SameType(v.data, w.data) ==> exists g: Heap :: g.MetamethodOf(v, event) == tm && g.MetamethodOf(w, event).data == Nil
  {
    var tag: nat := if v.data.Nil? then 0 else if v.data.Bool? then 1 else if v.data.Num? then 3 else if v.data.Str? then 4 else 6;
    var g := Heap(map[(0, event) := tm], map[], map[tag := 0]);
    assert !SameType(v.data, w.data) ==> g.MetamethodOf(v, event) == tm && g.MetamethodOf(w, event).data == Nil;
  }

  predicate SameType(d: Data, e: Data) {
    (d.Nil? && e.Nil?) || (d.Bool? && e.Bool?) || (d.Num? && e.Num?) || (d.Str? && e.Str?) || (d.Fun? && e.Fun?) || (d.Tab? && e.Tab?)
  }

  // ---------------------------------------------------------------------------
  // What has happened from one moment to another
  // ---------------------------------------------------------------------------

  /** v has been moved into slot i of a stack with taint st; if it is tainted, so is the stack now, unless the running code
      is tainted itself. */
  ghost predicate Wrote(v: TValue, s: seq<TValue>, st: Taint, fixed: Taint, s1: seq<TValue>, st1: Taint, i: nat) {
    Flows(v, SlotIn(s1, i), st) && SameBut(s, s1, i) && st1 == if v.taint.Some? && fixed.None? then v.taint else st
  }

  /** Upvalue u, or the slot it is open on, has become v. */
  ghost predicate UpvalSet(ups: map<nat, Upval>, s: seq<TValue>, u: nat, v: TValue, ups1: map<nat, Upval>, s1: seq<TValue>) {
    if u in ups && ups[u].Open? then ups1 == ups && SlotIn(s1, ups[u].slot) == v && SameBut(s, s1, ups[u].slot)
    else s1 == s && ups1 == if u in ups then ups[u := Shut(v)] else ups
  }

  /** A frame for the function at f, on top of the frames there were. */
  predicate Pushed(frames0: seq<Frame>, func0: nat, base0: nat, f: nat, nresults: int, cont: Cont, frames: seq<Frame>, func: nat) {
    && func == f && |frames| == |frames0| + 1 && frames[..|frames0|] == frames0
    && var caller := frames[|frames0|];
       caller.func == func0 && caller.base == base0 && caller.nresults == nresults && caller.cont == cont
  }

  /** The called function has its arguments: what stood above the function, or the called object too when a
      metamethod is called for it, and nil for the missing ones; nothing below changed. */
  ghost predicate Entered(s0: seq<TValue>, f: nat, top0: nat, s: seq<TValue>, func: nat, base: nat, code: Program) {
    var first := if SlotIn(s0, f).data.Fun? then f + 1 else f;
    && SameBelow(s0, s, f) && base > f && func == f
    && Delivered(s0, s, first, top0, base, ParamsIn(s, func, code))
    && (RoomyIn(s, func, code) ==> NilSlots(s, base + top0 - first, base + ParamsIn(s, func, code)))
  }

  /** Closure c runs: the stack has its taint, if it has one, and no value can change that. */
  predicate RunsAs(c: nat, code: Program, stacktaint: Taint, fixedtaint: Taint) {
    c in code.closures ==>
      fixedtaint == code.closures[c].taint && (code.closures[c].taint.Some? ==> stacktaint == code.closures[c].taint)
  }

  /** The same of the closure in the function slot. */
  predicate BackIn(s: seq<TValue>, func: nat, code: Program, stacktaint: Taint, fixedtaint: Taint) {
    RunningIn(s, func).Some? ==> RunsAs(RunningIn(s, func).value, code, stacktaint, fixedtaint)
  }

  /** What callTMres and callTM do: function and arguments are pushed and become the parameters, and a tainted
      one taints the stack. */
  ghost predicate Invoked(args: seq<TValue>, nresults: int, cont: Cont, was: Machine, m: Machine)
    requires |args| > 0
  {
    && Pushed(was.frames, was.func, was.base, was.top, nresults, cont, m.frames, m.func) && SameBelow(was.stack, m.stack, was.top)
    && Delivered(args, m.stack, if args[0].data.Fun? then 1 else 0, |args|, m.base, ParamsIn(m.stack, m.func, m.code))
    && ((exists i :: 0 <= i < |args| && args[i].taint.Some?) ==> m.stacktaint.Some?)
    && was.Callee(args[0]).Some? && RunsAs(was.Callee(args[0]).value, m.code, m.stacktaint, m.fixedtaint)
  }

  lemma SameCaller(args: seq<TValue>, nresults: int, cont: Cont, was: Machine, was1: Machine, m: Machine)
    requires |args| > 0 && Invoked(args, nresults, cont, was, m)
    requires SameFrame(was, was1.(fixedtaint := was.fixedtaint)) && was1.stack == was.stack && was1.heap == was.heap && was1.code == was.code
    ensures Invoked(args, nresults, cont, was1, m)
  {
  }

  /** The results of a function, from `first` up to `end`, are where its caller wants them. */
  ghost predicate Moved(s: seq<TValue>, t: seq<TValue>, first: nat, end: nat, res: nat, wanted: int) {
    && Delivered(s, t, first, end, res, wanted)
    && NilSlots(t, res + (if first < end then end - first else 0), res + wanted)
  }

  /** What a returning function leaves to the code that called it. */
  ghost predicate Returned(s: seq<TValue>, first: nat, end: nat, res: nat, ci: Frame, t: seq<TValue>) {
    match ci.cont
    case Result(r) =>
      if first < end && ci.nresults != 0 then Carries(SlotIn(s, first), SlotIn(t, r))
      else ci.nresults > 0 ==> SlotIn(t, r).data == Nil
    case Iterate(cb) =>
      cb == res ==>
        && Moved(s, t, first, end, res, ci.nresults)
        && (cb > 0 && SlotIn(t, cb).data != Nil ==> Carries(SlotIn(t, cb), SlotIn(t, cb - 1)))
    case _ => Moved(s, t, first, end, res, ci.nresults)
  }

  /** OP_RETURN */
  ghost predicate DidReturn(a: nat, b: nat, m0: Machine, m1: Machine) {
    && m0.frames != [] && m1.frames == m0.frames[..|m0.frames| - 1]
    && m1.ups == ClosedUps(m0.ups, m0.stack, m0.base)
    && var ci := m0.frames[|m0.frames| - 1];
       && m1.func == ci.func && m1.base == ci.base
       && (ci.cont == Plain ==> BackIn(m1.stack, m1.func, m1.code, m1.stacktaint, m1.fixedtaint))
       && (ci.nresults != LUA_MULTRET ==> m1.top == ci.top)
       && (m0.func <= m0.base + a ==>
             Returned(m0.stack, m0.base + a, if b != 0 then m0.base + a + b - 1 else m0.top, m0.func, ci, m1.stack))
  }

  /** The frame that makes a tail call is gone; its caller will get the results of the callee. */
  ghost predicate Replaced(s0: seq<TValue>, f: nat, top0: nat, func0: nat, s: seq<TValue>, func: nat, base: nat, code: Program) {
    && func == func0 && SameBelow(s0, s, func0)
    && (SlotIn(s0, f).data.Fun? ==> SlotIn(s, func0).data == SlotIn(s0, f).data)
    && (RoomyIn(s, func, code) ==> Delivered(s0, s, if SlotIn(s0, f).data.Fun? then f + 1 else f, top0, base, ParamsIn(s, func, code)))
  }

  /** OP_TAILCALL; the upvalues of the old frame are closed, with the values that the call found there. */
  ghost predicate DidTailCall(a: nat, b: nat, m0: Machine, m1: Machine) {
    var f, top0 := m0.base + a, if b != 0 then m0.base + a + b else m0.top;
    && m1.frames == m0.frames && m1.func == m0.func
    && (top0 > f && m0.func <= f ==> Replaced(m0.stack, f, top0, m0.func, m1.stack, m1.func, m1.base, m1.code))
    && m0.Callee(m0.Register(a)).Some? && RunsAs(m0.Callee(m0.Register(a)).value, m1.code, m1.stacktaint, m1.fixedtaint)
    && exists s :: (top0 > f ==> SameBelow(m0.stack, s, f)) && m1.ups == ClosedUps(m0.ups, s, m0.base)
  }

  /** OP_CALL */
  ghost predicate DidCall(a: nat, b: nat, c: nat, m0: Machine, m1: Machine) {
    var f, top0 := m0.base + a, if b != 0 then m0.base + a + b else m0.top;
    && Pushed(m0.frames, m0.func, m0.base, f, c - 1, Plain, m1.frames, m1.func)
    && (top0 > f ==> Entered(m0.stack, f, top0, m1.stack, m1.func, m1.base, m1.code))
    && m0.Callee(m0.Register(a)).Some? && RunsAs(m0.Callee(m0.Register(a)).value, m1.code, m1.stacktaint, m1.fixedtaint)
  }

  /** Computed from the operands: a tainted one makes the stack, and so the result, tainted. */
  ghost predicate Computed(s: seq<TValue>, operands: seq<nat>, d: Data, w: TValue, st: Taint) {
    w.data == d && w.taint == st && (st.Some? ==> STACK in w.deps) && forall o :: o in operands ==> SlotIn(s, o).deps <= w.deps
  }

  /** A computed value is in slot i, and nothing else of the stack has changed. */
  ghost predicate SetTo(m0: Machine, m1: Machine, i: nat, d: Data, operands: seq<nat>) {
    Computed(m0.stack, operands, d, SlotIn(m1.stack, i), m0.stacktaint) && SameBut(m0.stack, m1.stack, i) && m1.stacktaint == m0.stacktaint
  }

  /** The slots of some registers. */
  function Registers(base: nat, rs: seq<nat>): seq<nat> {
    seq(|rs|, i requires 0 <= i < |rs| => base + rs[i])
  }

  /** The slots between two slots. */
  function Span(from: nat, to: nat): seq<nat> {
    seq(if to >= from then to - from + 1 else 0, i => from + i)
  }

  lemma SpanMeans(from: nat, to: nat, i: nat)
    ensures i in Span(from, to) <==> from <= i <= to
  {
    if from <= i <= to { assert Span(from, to)[i - from] == i; }
  }

  /** u is the upvalue that a new closure captures: one of the running closure, or the one open on a register. */
  ghost predicate Captured(fromStack: bool, i: nat, base: nat, s: seq<TValue>, func: nat, code: Program, ups: map<nat, Upval>, u: nat) {
    if fromStack then u in ups && ups[u] == Open(base + i)
    else
      match RunningIn(s, func)
      case None => true
      case Some(c) => c in code.closures && i < |code.closures[c].ups| ==> u == code.closures[c].ups[i]
  }

  /** The upvalues that a new closure captures, in order. */
  ghost predicate Captures(captures: seq<(bool, nat)>, base: nat, s: seq<TValue>, func: nat, code: Program, ups: map<nat, Upval>, list: seq<nat>) {
    |list| == |captures| && forall k :: 0 <= k < |captures| ==> Captured(captures[k].0, captures[k].1, base, s, func, code, ups, list[k])
  }

  lemma StillCaptured(fromStack: bool, i: nat, base: nat, s: seq<TValue>, func: nat, code: Program, ups: map<nat, Upval>, ups1: map<nat, Upval>, u: nat)
    requires Captured(fromStack, i, base, s, func, code, ups, u) && MoreUps(ups, ups1)
    ensures Captured(fromStack, i, base, s, func, code, ups1, u)
  {
  }

  /** Only open upvalues have been added. */
  ghost predicate MoreUps(ups: map<nat, Upval>, ups1: map<nat, Upval>) {
    && (forall u :: u in ups ==> u in ups1 && ups1[u] == ups[u])
    && (forall u :: u in ups1 && u !in ups ==> ups1[u].Open?)
  }

  /** OP_CLOSURE: a new closure of the prototype, in the environment of the running one, with its captures in order and
      the taint of the code that creates it. */
  ghost predicate DidClosure(a: nat, proto: nat, captures: seq<(bool, nat)>, m0: Machine, m1: Machine) {
    var v := SlotIn(m1.stack, m0.base + a).data;
    && v.Fun? && v.c !in m0.code.closures && v.c in m1.code.closures && SetTo(m0, m1, m0.base + a, v, [])
    && (var cl := m1.code.closures[v.c];
        && m1.code == m0.code.(closures := m0.code.closures[v.c := cl]) && cl.proto == proto
        && Captures(captures, m0.base, m0.stack, m0.func, m0.code, m1.ups, cl.ups)
        && (var run := RunningIn(m0.stack, m0.func);
            run.Some? && run.value in m0.code.closures ==> cl.env == m0.code.closures[run.value].env)
        && (m1.stacktaint.Some? ==> cl.taint.Some?)
        && (m0.newgctaint.None? && m0.writetaint.Some? ==> cl.taint == m0.writetaint))
    && MoreUps(m0.ups, m1.ups)
  }

  /** A new table, not one with fields or a metatable already, with the taint of the code that creates it. */
  ghost predicate DidNewTable(a: nat, m0: Machine, m1: Machine) {
    var v := SlotIn(m1.stack, m0.base + a).data;
    && v.Tab? && SetTo(m0, m1, m0.base + a, v, [])
    && v.t !in m0.objtaint && v.t !in m0.heap.metatable && (forall key :: (v.t, key) !in m0.heap.fields)
    && m1.objtaint == m0.objtaint[v.t := if m0.newgctaint.Some? then m0.newgctaint else m0.writetaint]
  }

  ghost predicate ValueEffect(op: Op, m0: Machine, m1: Machine)
    requires PutsValue(op)
  {
    match op
    case Move(a, b) => Wrote(m0.Register(b), m0.stack, m0.stacktaint, m0.fixedtaint, m1.stack, m1.stacktaint, m0.base + a)
    case LoadK(a, k) => Wrote(m0.OperandValue(Const(k)), m0.stack, m0.stacktaint, m0.fixedtaint, m1.stack, m1.stacktaint, m0.base + a)
    case LoadBool(a, b) => SetTo(m0, m1, m0.base + a, Bool(b), [])
    case LoadNil(a, b) =>
      && NilSlots(m1.stack, m0.base + a, m0.base + b + 1) && m1.stacktaint == m0.stacktaint
      && forall j: nat :: j < m0.base + a || (j >= m0.base + b + 1) ==> SlotIn(m1.stack, j) == SlotIn(m0.stack, j)
    case GetUpval(a, b) =>
      && m0.UpvalAt(b).Some?
      && Wrote(UpvalIn(m0.ups, m0.stack, m0.UpvalAt(b).value), m0.stack, m0.stacktaint, m0.fixedtaint, m1.stack, m1.stacktaint, m0.base + a)
    case SetUpval(a, b) =>
      m0.UpvalAt(b).Some? && UpvalSet(m0.ups, m0.stack, m0.UpvalAt(b).value, m0.Register(a), m1.ups, m1.stack) && m1.stacktaint == m0.stacktaint
    case NewTable(a) => DidNewTable(a, m0, m1)
    case Compute(a, d, operands) =>
      && SetTo(m0, m1, m0.base + a, d, [])
      && forall r :: r in operands ==> m0.Register(r).deps <= SlotIn(m1.stack, m0.base + a).deps
  }

  /** The registers of the frame that runs, and the place on the stack it has, have not changed. */
  predicate SameFrame(m0: Machine, m1: Machine) {
    m1.top == m0.top && m1.func == m0.func && m1.base == m0.base && m1.frames == m0.frames && m1.fixedtaint == m0.fixedtaint
  }

  ghost predicate GotTable(t: TValue, key: TValue, val: nat, m0: Machine, m1: Machine) {
    match m0.heap.Index(t, key.data, MAXTAGLOOP)
    case Field(v) => Wrote(v, m0.stack, m0.stacktaint, m0.fixedtaint, m1.stack, m1.stacktaint, val) && SameFrame(m0, m1)
    case Handler(tm, obj) => Invoked([tm, obj, key], 1, Result(val), m0, m1)
    case _ => false
  }

  ghost predicate DidSetTable(t: TValue, key: TValue, v: TValue, m0: Machine, m1: Machine) {
    && (m0.heap.TaintedHop(t, key.data, MAXTAGLOOP) ==> m1.stacktaint.Some?)
    && match m0.heap.NewIndex(t, key.data, MAXTAGLOOP)
       case Place(h) =>
         && m1.heap.fields == m0.heap.fields[(h, key.data) := v] && m1.stack == m0.stack && SameFrame(m0, m1)
         && (m1.stacktaint != m0.stacktaint ==> m0.heap.TaintedHop(t, key.data, MAXTAGLOOP))
       case Handler(tm, obj) => m1.heap.fields == m0.heap.fields && Invoked([tm, obj, key, v], 0, Discard, m0, m1)
       case _ => false
  }

  function PutIn(s: seq<TValue>, i: nat, v: TValue): seq<TValue> {
    if i < |s| then s[i := v] else s + seq(i - |s|, _ => EMPTY) + [v]
  }

  /** The key of a method, read when the object is already in the register above the method's. */
  function SelfKey(a: nat, b: nat, key: Operand, m: Machine): Data {
    m.(stack := PutIn(m.stack, m.base + a + 1, m.Register(b))).OperandValue(key).data
  }

  /** The object is kept as the first argument, and the method comes from it. */
  ghost predicate DidSelf(a: nat, b: nat, key: Operand, m0: Machine, m1: Machine) {
    var ra, obj := m0.base + a, m0.Register(b);
    match m0.heap.Index(obj, SelfKey(a, b, key, m0), MAXTAGLOOP)
    case Field(v) =>
      && Carries(v, SlotIn(m1.stack, ra)) && Flows(obj, SlotIn(m1.stack, ra + 1), m0.stacktaint) && SameFrame(m0, m1)
      && (obj.taint.Some? || v.taint.Some? ==> m1.stacktaint.Some?)
      && forall j: nat :: j != ra && j != ra + 1 ==> SlotIn(m1.stack, j) == SlotIn(m0.stack, j)
    case Handler(tm, o) =>
      && Pushed(m0.frames, m0.func, m0.base, m0.top, 1, Result(ra), m1.frames, m1.func)
      && (ra + 1 < m0.top ==> Flows(obj, SlotIn(m1.stack, ra + 1), m0.stacktaint))
      && m0.Callee(tm).Some? && RunsAs(m0.Callee(tm).value, m1.code, m1.stacktaint, m1.fixedtaint)
    case _ => false
  }

  /** The metamethod of the first operand, or of the second. */
  function BinTMOf(left: Operand, right: Operand, event: Data, m: Machine): TValue {
    var first := m.heap.MetamethodOf(m.OperandValue(left), event);
    if first.data != Nil then first else m.heap.MetamethodOf(m.OperandValue(right), event)
  }

  predicate FailsBinTM(left: Operand, right: Operand, event: Data, m: Machine) {
    BinTMOf(left, right, event, m).data == Nil || m.Callee(BinTMOf(left, right, event, m)).None?
  }

  ghost predicate DidBinTM(a: nat, left: Operand, right: Operand, event: Data, m0: Machine, m1: Machine) {
    Invoked([BinTMOf(left, right, event, m0), m0.OperandValue(left), m0.OperandValue(right)], 1, Result(m0.base + a), m0, m1)
  }

  ghost predicate AccessEffect(op: Op, m0: Machine, m1: Machine)
    requires Accesses(op)
  {
    match op
    case GetTable(a, t, key) => GotTable(m0.OperandValue(t), m0.OperandValue(key), m0.base + a, m0, m1)
    case SetTable(t, key, v) => DidSetTable(m0.OperandValue(t), m0.OperandValue(key), m0.OperandValue(v), m0, m1)
    case SelfOp(a, b, key) => DidSelf(a, b, key, m0, m1)
    case BinTM(a, left, right, event) => DidBinTM(a, left, right, event, m0, m1)
  }

  /** The iterator is called with the state and the control variable, above the three slots of the loop. */
  ghost predicate Iterated(ra: nat, c: nat, was: Machine, m: Machine) {
    && Pushed(was.frames, was.func, was.base, ra + 3, c, Iterate(ra + 3), m.frames, m.func) && SameBelow(was.stack, m.stack, ra + 3)
    && Delivered(was.stack, m.stack, if SlotIn(was.stack, ra).data.Fun? then ra + 1 else ra, ra + 3, m.base, ParamsIn(m.stack, m.func, m.code))
    && was.Callee(SlotIn(was.stack, ra)).Some?
    && RunsAs(was.Callee(SlotIn(was.stack, ra)).value, m.code, m.stacktaint, m.fixedtaint)
  }

  ghost predicate TransferEffect(op: Op, m0: Machine, m1: Machine)
    requires Transfers(op)
  {
    match op
    case Call(a, b, c) => DidCall(a, b, c, m0, m1)
    case TailCall(a, b) => DidTailCall(a, b, m0, m1)
    case Return(a, b) => DidReturn(a, b, m0, m1)
    case TForLoop(a, c) => Iterated(m0.base + a, c, m0, m1)
  }

  ghost predicate OtherEffect(op: Op, m0: Machine, m1: Machine) {
    match op
    case Concat(a, b, c, d) =>
      && Computed(m0.stack, Span(m0.base + b, m0.base + c), d, SlotIn(m1.stack, m0.base + a), m0.stacktaint)
      && m1.stacktaint == m0.stacktaint
      && forall j: nat :: j != m0.base + a && j != m0.base + b ==> SlotIn(m1.stack, j) == SlotIn(m0.stack, j)
    case ForLoop(a, d) =>
      var operands := [m0.base + a, m0.base + a + 2];
      && Computed(m0.stack, operands, d, SlotIn(m1.stack, m0.base + a), m0.stacktaint)
      && Computed(m0.stack, operands, d, SlotIn(m1.stack, m0.base + a + 3), m0.stacktaint)
      && m1.stacktaint == m0.stacktaint
      && forall j: nat :: j != m0.base + a && j != m0.base + a + 3 ==> SlotIn(m1.stack, j) == SlotIn(m0.stack, j)
    case ForPrep(a, d) => SetTo(m0, m1, m0.base + a, d, [m0.base + a, m0.base + a + 2])
    case SetList(a, n, first) =>
      var list := m0.Register(a).data;
      m1.stack == m0.stack && m1.stacktaint == m0.stacktaint
      && if list.Tab? then Filled(m0.heap.fields, m1.heap.fields, list.t, first, n, m0.stack, m0.base + a) else m1.heap.fields == m0.heap.fields
    case Close(a) => m1.ups == ClosedUps(m0.ups, m0.stack, m0.base + a) && m1.stack == m0.stack && m1.stacktaint == m0.stacktaint
    case MakeClosure(a, proto, captures) => DidClosure(a, proto, captures, m0, m1)
    case Vararg(a, b) =>
      var n := ExtraIn(m0.stack, m0.func, m0.base, m0.code);
      && SameBelow(m0.stack, m1.stack, m0.base + a)
      && Delivered(m0.stack, m1.stack, m0.base - n, m0.base, m0.base + a, if b == 0 then -1 else b - 1)
      && NilSlots(m1.stack, m0.base + a + n, m0.base + a + b - 1)
      && m1.top == if b == 0 then m0.base + a + n else m0.top
    case _ => true
  }

  /** The instructions that put one value somewhere. */
  predicate PutsValue(op: Op) {
    op.Move? || op.LoadK? || op.LoadBool? || op.LoadNil? || op.GetUpval? || op.SetUpval? || op.NewTable? || op.Compute?
  }

  /** The instructions that may call metamethods. */
  predicate Accesses(op: Op) {
    op.GetTable? || op.SetTable? || op.SelfOp? || op.BinTM?
  }

  /** The instructions that call, return or iterate. */
  predicate Transfers(op: Op) {
    op.Call? || op.TailCall? || op.Return? || op.TForLoop?
  }

  /** What an instruction does not change. */
  ghost predicate Untouched(op: Op, m0: Machine, m1: Machine) {
    && m1.newgctaint == m0.newgctaint && m1.heap.metatable == m0.heap.metatable && m1.heap.basicmt == m0.heap.basicmt
    && (op.SetTable? || op.SetList? || m1.heap.fields == m0.heap.fields)
    && (op.NewTable? || m1.objtaint == m0.objtaint) && (op.MakeClosure? || m1.code == m0.code)
    && (op.SetUpval? || op.Close? || op.Return? || op.TailCall? || op.MakeClosure? || m1.ups == m0.ups)
    && (Accesses(op) || Transfers(op) || op.Vararg? || m1.top == m0.top)
    && (Accesses(op) || Transfers(op) || SameFrame(m0, m1.(top := m0.top)))
    && (m0.stacktaint.Some? ==> m1.stacktaint.Some?)
  }

  /** What an instruction that succeeds has done: where values, their taint and their sources have gone. */
  ghost predicate Effect(op: Op, m0: Machine, m1: Machine) {
    && Untouched(op, m0, m1)
    && if PutsValue(op) then ValueEffect(op, m0, m1)
       else if Accesses(op) then AccessEffect(op, m0, m1)
       else if Transfers(op) then TransferEffect(op, m0, m1)
       else OtherEffect(op, m0, m1)
  }

  /** The access ends in an error, or at a function that is not known. */
  predicate FailsAccess(a: Access, m: Machine) {
    match a
    case Handler(tm, _) => m.Callee(tm).None?
    case Failed => true
    case _ => false
  }

  /** The instructions that raise an error, by the state before them; the others never do. */
  predicate Fails(op: Op, m: Machine) {
    match op
    case GetUpval(_, b) => m.UpvalAt(b).None?
    case SetUpval(_, b) => m.UpvalAt(b).None?
    case GetTable(_, t, key) => FailsAccess(m.heap.Index(m.OperandValue(t), m.OperandValue(key).data, MAXTAGLOOP), m)
    case SetTable(t, key, _) => FailsAccess(m.heap.NewIndex(m.OperandValue(t), m.OperandValue(key).data, MAXTAGLOOP), m)
    case SelfOp(a, b, key) => FailsAccess(m.heap.Index(m.Register(b), SelfKey(a, b, key, m), MAXTAGLOOP), m)
    case BinTM(_, left, right, event) => FailsBinTM(left, right, event, m)
    case Call(a, _, _) => m.Callee(m.Register(a)).None?
    case TailCall(a, _) => m.Callee(m.Register(a)).None?
    case TForLoop(a, _) => m.Callee(m.Register(a)).None?
    case Return(_, _) => m.frames == []
    case _ => false
  }

  class LuaState {
    var rd: bool
    var wr: bool
    var stacktaint: Taint
    var writetaint: Taint
    var fixedtaint: Taint
    var newgctaint: Taint
    var newcltaint: Taint
    var stack: seq<TValue>
    var top: nat
    var base: nat
    var func: nat
    var frames: seq<Frame>
    var fields: map<(nat, Data), TValue>
    var metatable: map<nat, nat>
    var basicmt: map<nat, nat>
    var objtaint: map<nat, Taint>
    var ups: map<nat, Upval>
    var closures: map<nat, Closure>
    var protos: map<nat, Proto>

    // -------------------------------------------------------------------------
    // Invariants
    // -------------------------------------------------------------------------

    /** A new state (preinit_state), with the main function of a program on its stack, put into mode rw.  What is
        loaded with untainted constants starts without any taint. */
    constructor (main: nat, closures: map<nat, Closure>, protos: map<nat, Proto>)
      requires forall p, i :: p in protos && 0 <= i < |protos[p].k| ==> protos[p].k[i].taint.None? && protos[p].k[i].deps == {}
      ensures Inv() && stacktaint.None? && frames == [] && Get(func).data == Fun(main)
      ensures this.closures == closures && this.protos == protos && fields == map[] && ups == map[]
    {
      rd, wr := false, false;
      stacktaint, writetaint, fixedtaint, newgctaint, newcltaint := None, None, None, None, None;
      stack, top, base, func := [TValue(Fun(main), None, {})], 1, 1, 0;
      frames, fields, metatable, basicmt, objtaint, ups := [], map[], map[], map[], map[], map[];
      this.closures, this.protos := closures, protos;
      new;
      SetTaintMode(true, true);
    }

    /** Stack writes carry the stack taint exactly in the modes with the write flag. */
    predicate WriteOk()
      reads this`wr, this`writetaint, this`stacktaint
    {
      writetaint == if wr then stacktaint else None
    }

    ghost predicate SlotAt(i: int)
      reads this`stack, this`stacktaint
    {
      0 <= i < |stack| ==> Honest(stack[i]) && (stack[i].taint.Some? ==> stacktaint.Some?)
    }

    ghost predicate FieldAt(k: (nat, Data))
      reads this`fields
    {
      k in fields ==> Honest(fields[k])
    }

    ghost predicate UpvalAt(u: nat)
      reads this`ups
    {
      u in ups && ups[u].Shut? ==> Honest(ups[u].v)
    }

    ghost predicate ConstantAt(p: nat, i: int)
      reads this`protos
    {
      p in protos && 0 <= i < |protos[p].k| ==> protos[p].k[i].taint.None? && protos[p].k[i].deps == {}
    }

    /** Mode rw. */
    ghost predicate Inv()
      reads this`rd, this`wr, this`writetaint, this`stacktaint, this`fixedtaint, this`stack, this`fields, this`ups, this`protos
    {
      && rd && wr && writetaint == stacktaint && (fixedtaint.Some? ==> stacktaint.Some?)
      && (forall i :: SlotAt(i)) && (forall k :: FieldAt(k)) && (forall u :: UpvalAt(u)) && (forall p, i :: ConstantAt(p, i))
    }

    /** What every instruction keeps; a tainted stack stays tainted. */
    twostate predicate Kept()
      reads this
    {
      Inv() && (old(stacktaint).Some? ==> stacktaint.Some?) && protos == old(protos)
    }

    // -------------------------------------------------------------------------
    // lsec.h
    // -------------------------------------------------------------------------

    method SetTaintMode(newRd: bool, newWr: bool)
      modifies this`rd, this`wr, this`writetaint
      ensures rd == newRd && wr == newWr && WriteOk()
    {
      rd, wr := newRd, newWr;
      writetaint := if wr then stacktaint else None;
    }

    method SetStackTaint(taint: Taint)
      modifies this`stacktaint, this`writetaint
      ensures stacktaint == taint && WriteOk()
    {
      stacktaint := taint;
      writetaint := if wr then taint else None;
    }

    /** luaR_taintstack */
    method TaintStack(taint: Taint)
      requires WriteOk()
      modifies this`stacktaint, this`writetaint
      ensures WriteOk()
      ensures stacktaint == if taint.Some? && fixedtaint.None? && rd then taint else old(stacktaint)
    {
      if taint.Some? && fixedtaint.None? && rd {
        SetStackTaint(taint);
      }
    }

    /** luaR_taintalloc: the taint of a new object. */
    method TaintAlloc(isFunction: bool) returns (taint: Taint)
      ensures taint == if newgctaint.Some? then newgctaint else if writetaint.Some? then writetaint
                       else if isFunction then newcltaint else None
    {
      taint := None;
      if newgctaint.Some? {
        taint := newgctaint;
      } else if writetaint.Some? {
        taint := writetaint;
      } else if newcltaint.Some? && isFunction {
        taint := newcltaint;
      }
    }

    method SaveTaint() returns (ts: TaintState)
      ensures ts == TaintState(rd, wr, stacktaint, newgctaint, newcltaint)
    {
      ts := TaintState(rd, wr, stacktaint, newgctaint, newcltaint);
    }

    /** luaR_loadtaint: the mode is set while the old stack taint is still there. */
    method LoadTaint(ts: TaintState)
      modifies this`rd, this`wr, this`stacktaint, this`writetaint, this`newgctaint, this`newcltaint
      ensures WriteOk() && TaintState(rd, wr, stacktaint, newgctaint, newcltaint) == ts
    {
      SetTaintMode(ts.rd, ts.wr);
      SetStackTaint(ts.stacktaint);
      newgctaint := ts.newgctaint;
      newcltaint := ts.newcltaint;
    }

    /** Saving and loading gives the taint state back, write taint included. */
    method SaveThenLoad(other: TaintState)
      requires WriteOk()
      modifies this`rd, this`wr, this`stacktaint, this`writetaint, this`newgctaint, this`newcltaint
      ensures rd == old(rd) && wr == old(wr) && stacktaint == old(stacktaint) && writetaint == old(writetaint)
      ensures newgctaint == old(newgctaint) && newcltaint == old(newcltaint)
    {
      var ts := SaveTaint();
      LoadTaint(other);
      LoadTaint(ts);
    }

    // -------------------------------------------------------------------------
    // lmanip.h
    // -------------------------------------------------------------------------

    function Get(i: nat): TValue
      reads this`stack
    {
      SlotIn(stack, i)
    }

    /** A stack slot, in a stack that grows on demand. */
    method Put(i: nat, v: TValue)
      modifies this`stack
      ensures |stack| >= |old(stack)| && i < |stack| && stack[i] == v
      ensures forall j :: 0 <= j < |stack| && j != i ==> stack[j] == if j < |old(stack)| then old(stack)[j] else EMPTY
    {
      if i >= |stack| {
        stack := stack + seq(i + 1 - |stack|, _ => EMPTY);
      }
      stack := stack[i := v];
    }

    function Written(deps: set<nat>): set<nat>
      reads this`stacktaint
    {
      if stacktaint.Some? then deps + {STACK} else deps
    }

    /** setnilvalue, setnvalue, setbvalue, setsvalue, sethvalue, setclvalue on a stack slot: a value computed
        from stack values.  Its sources are those of its operands. */
    method SetValue(i: nat, d: Data, operands: seq<nat>)
      requires Inv()
      modifies this`stack
      ensures Kept() && i < |stack| && stack[i].data == d && stack[i].taint == stacktaint
      ensures forall o :: o in operands ==> old(Get(o)).deps <= stack[i].deps
      ensures stacktaint.Some? ==> STACK in stack[i].deps
      ensures SameBut(old(stack), stack, i)
    {
      var deps := Written(DepsOf(operands));
      DepsHonest(operands);
      SlotFacts();
      Put(i, TValue(d, writetaint, deps));
      SlotsKept(old(stack), i);
    }

    /** The sources of some stack slots. */
    function DepsOf(operands: seq<nat>): set<nat>
      reads this`stack
    {
      if operands == [] then {} else Get(operands[0]).deps + DepsOf(operands[1..])
    }

    lemma {:induction false} DepsHonest(operands: seq<nat>)
      requires Inv()
      ensures DepsOf(operands) != {} ==> stacktaint.Some?
      ensures forall o :: o in operands ==> Get(o).deps <= DepsOf(operands)
      decreases |operands|
    {
      if operands != [] {
        DepsHonest(operands[1..]);
        assert SlotAt(operands[0]);
        assert operands == [operands[0]] + operands[1..];
      }
    }

    lemma SlotFacts()
      requires forall i :: SlotAt(i)
      ensures forall j :: 0 <= j < |stack| ==> Honest(stack[j]) && (stack[j].taint.Some? ==> stacktaint.Some?)
    {
      forall j | 0 <= j < |stack| ensures Honest(stack[j]) && (stack[j].taint.Some? ==> stacktaint.Some?) {
        assert SlotAt(j);
      }
    }

    /** A slot written well keeps the invariant of the others. */
    lemma SlotsKept(old_: seq<TValue>, i: nat)
      requires i < |stack| && |old_| <= |stack|
      requires forall j :: 0 <= j < |stack| && j != i ==> stack[j] == if j < |old_| then old_[j] else EMPTY
      requires forall j :: 0 <= j < |old_| ==> Honest(old_[j]) && (old_[j].taint.Some? ==> stacktaint.Some?)
      requires Honest(stack[i]) && (stack[i].taint.Some? ==> stacktaint.Some?)
      ensures forall j :: SlotAt(j)
    {
    }

    /** setobj2s: a tainted value taints the stack, a clean one takes the taint of the stack. */
    method SetObj2S(i: nat, src: TValue)
      requires Inv() && Honest(src)
      modifies this`stack, this`stacktaint, this`writetaint
      ensures Kept() && i < |stack| && Wrote(src, old(stack), old(stacktaint), fixedtaint, stack, stacktaint, i)
      ensures Flows(src, stack[i], old(stacktaint)) && (src.taint.Some? ==> stacktaint.Some?)
      ensures SameBut(old(stack), stack, i)
    {
      ghost var stack0 := stack;
      SlotFacts();
      var deps := Written(src.deps);
      if src.taint.None? {
        Put(i, TValue(src.data, writetaint, deps));
      } else {
        Put(i, TValue(src.data, src.taint, deps));
        TaintStack(src.taint);
      }
      SlotsKept(stack0, i);
    }

    // -------------------------------------------------------------------------
    // Moves between stack, tables and upvalues
    // -------------------------------------------------------------------------

    lemma GetHonest(i: nat)
      requires Inv()
      ensures Honest(Get(i)) && (Get(i).taint.Some? ==> stacktaint.Some?)
    {
      assert SlotAt(i);
    }

    /** setobjs2s */
    method MoveSlot(dst: nat, src: nat)
      requires Inv()
      modifies this`stack, this`stacktaint, this`writetaint
      ensures Kept() && dst < |stack| && Wrote(old(Get(src)), old(stack), old(stacktaint), fixedtaint, stack, stacktaint, dst)
      ensures Flows(old(Get(src)), stack[dst], old(stacktaint)) && SameBut(old(stack), stack, dst)
    {
      GetHonest(src);
      SetObj2S(dst, Get(src));
    }

    function Tables(): Heap
      reads this`fields, this`metatable, this`basicmt
    {
      Heap(fields, metatable, basicmt)
    }

    function Code(): Program
      reads this`closures, this`protos
    {
      Program(closures, protos)
    }

    function Here(): Machine
      reads this
    {
      Machine(stacktaint, writetaint, fixedtaint, newgctaint, stack, top, base, func, frames, Tables(), objtaint, ups, Code())
    }

    function FieldOf(t: nat, key: Data): TValue
      reads this`fields
    {
      FieldIn(fields, t, key)
    }

    /** setobj2t: the value goes into the table as it is. */
    method SetField(t: nat, key: Data, v: TValue)
      requires Inv() && Honest(v)
      modifies this`fields
      ensures Kept() && fields == old(fields)[(t, key) := v]
    {
      FieldFacts();
      fields := fields[(t, key) := v];
    }

    lemma FieldFacts()
      requires forall k :: FieldAt(k)
      ensures forall k :: k in fields ==> Honest(fields[k])
    {
      forall k | k in fields ensures Honest(fields[k]) {
        assert FieldAt(k);
      }
    }

    /** The value an upvalue holds: a stack slot while it is open. */
    function UpvalValue(u: nat): TValue
      reads this`ups, this`stack
    {
      UpvalIn(ups, stack, u)
    }

    lemma UpvalHonest(u: nat)
      requires Inv()
      ensures Honest(UpvalValue(u))
    {
      assert UpvalAt(u);
      if u in ups && ups[u].Open? { GetHonest(ups[u].slot); }
    }

    /** setobj2uv */
    method SetUpvalue(u: nat, src: nat)
      requires Inv()
      modifies this`ups, this`stack
      ensures Kept() && UpvalSet(old(ups), old(stack), u, old(Get(src)), ups, stack)
    {
      GetHonest(src);
      if u in ups {
        if ups[u].Open? {
          SlotFacts();
          ghost var stack0 := stack;
          Put(ups[u].slot, Get(src));
          SlotsKept(stack0, ups[u].slot);
        } else {
          ups := ups[u := Shut(Get(src))];
          forall w ensures UpvalAt(w) {
            assert old(UpvalAt(w));
          }
        }
      }
    }

    /** luaF_close: the values of the slots move into their upvalues, taint and all. */
    method CloseUpvals(level: nat)
      requires Inv()
      modifies this`ups
      ensures Kept() && ups == ClosedUps(old(ups), stack, level)
      ensures forall u :: UpvalValue(u) == old(UpvalValue(u))
    {
      SlotFacts();
      ups := map u | u in ups :: if ups[u].Open? && ups[u].slot >= level then Shut(Get(ups[u].slot)) else ups[u];
      forall u ensures UpvalAt(u) {
        assert old(UpvalAt(u));
      }
    }

    function CurrentClosure(): Option<nat>
      reads this`stack, this`func
    {
      RunningIn(stack, func)
    }

    function OperandValue(o: Operand): TValue
      reads this
    {
      Here().OperandValue(o)
    }

    lemma OperandHonest(o: Operand)
      requires Inv()
      ensures Honest(OperandValue(o))
    {
      match o
      case Reg(r) => GetHonest(base + r);
      case Const(k) =>
        if CurrentClosure().Some? && CurrentClosure().value in closures {
          assert ConstantAt(closures[CurrentClosure().value].proto, k);
        }
      case Env =>
    }

    // -------------------------------------------------------------------------
    // Calls
    // -------------------------------------------------------------------------

    /** Entering or re-entering a Lua function (luaV_execute): its taint goes to the stack and is then fixed. */
    method Enter(c: nat)
      requires Inv()
      modifies this`fixedtaint, this`stacktaint, this`writetaint
      ensures Kept() && RunsAs(c, Code(), stacktaint, fixedtaint)
    {
      SlotFacts();
      fixedtaint := None;
      if c in closures {
        TaintStack(closures[c].taint);
        fixedtaint := closures[c].taint;
      }
    }

    method NilFrom(from: nat, to: nat)
      requires Inv()
      modifies this`stack
      ensures Kept() && SameBelow(old(stack), stack, from) && NilSlots(stack, from, to)
      ensures forall j: nat :: j >= to && j >= from ==> SlotIn(stack, j) == SlotIn(old(stack), j)
    {
      hide Inv;
      var st := from;
      while st < to
        invariant Kept() && from <= st && SameBelow(old(stack), stack, from) && NilSlots(stack, from, st)
        invariant forall j: nat :: j >= to && j >= from ==> SlotIn(stack, j) == SlotIn(old(stack), j)
      {
        SetValue(st, Nil, []);
        st := st + 1;
      }
    }

    /** The first loop of adjust_varargs: missing arguments are nil. */
    method PadArgs(numparams: nat, actual0: nat) returns (actual: nat)
      requires Inv()
      modifies this`stack, this`top
      ensures Kept() && actual == (if actual0 < numparams then numparams else actual0) && top == old(top) + actual - actual0
      ensures SameBelow(old(stack), stack, old(top)) && NilSlots(stack, old(top), top)
    {
      hide Inv;
      actual := actual0;
      while actual < numparams
        invariant Kept() && actual0 <= actual && (actual <= numparams || actual == actual0) && top == old(top) + actual - actual0
        invariant SameBelow(old(stack), stack, old(top)) && NilSlots(stack, old(top), top)
        decreases numparams - actual
      {
        SetValue(top, Nil, []);
        top := top + 1;
        actual := actual + 1;
      }
    }

    /** The second loop of adjust_varargs: the fixed parameters move above the others. */
    method MoveFixed(numparams: nat, fixed: nat)
      requires Inv()
      modifies this`stack, this`stacktaint, this`writetaint, this`top
      ensures Kept() && top == old(top) + numparams
      ensures fixed + numparams <= old(top) ==>
                SameBelow(old(stack), stack, fixed) && Delivered(old(stack), stack, fixed, old(top), old(top), numparams)
    {
      hide Inv;
      var i := 0;
      while i < numparams
        invariant Kept() && 0 <= i <= numparams && top == old(top) + i
        invariant fixed + numparams <= old(top) ==> SameBelow(old(stack), stack, fixed) && Delivered(old(stack), stack, fixed, old(top), old(top), i)
        invariant fixed + numparams <= old(top) ==> forall j: nat :: fixed + i <= j < old(top) ==> SlotIn(stack, j) == SlotIn(old(stack), j)
      {
        MoveSlot(top, fixed + i);
        top := top + 1;
        SetValue(fixed + i, Nil, []);
        i := i + 1;
      }
    }

    /** adjust_varargs: the function at f has its arguments up to the top. */
    method AdjustVarargs(numparams: nat, f: nat) returns (newbase: nat)
      requires Inv()
      modifies this`stack, this`stacktaint, this`writetaint, this`top
      ensures Kept()
      ensures old(top) > f ==>
                && newbase > f && top == newbase + numparams && SameBelow(old(stack), stack, f + 1)
                && Delivered(old(stack), stack, f + 1, old(top), newbase, numparams)
                && NilSlots(stack, newbase + old(top) - f - 1, newbase + numparams)
    {
      hide Inv, Delivered, SameBelow, NilSlots;
      var actual := PadArgs(numparams, if top > f then top - f - 1 else 0);
      ghost var padded, top1 := stack, top;
      newbase := top;
      MoveFixed(numparams, if top >= actual then top - actual else 0);
      if old(top) > f { Adjusted(old(stack), padded, stack, f, old(top), newbase, numparams); }
    }

    /** The parameters are the arguments and then nil. */
    lemma Adjusted(s0: seq<TValue>, s1: seq<TValue>, s2: seq<TValue>, f: nat, top0: nat, top1: nat, n: nat)
      requires top0 > f && f + 1 + n <= top1 && top0 <= top1 && SameBelow(s0, s1, top0) && NilSlots(s1, top0, top1)
      requires SameBelow(s1, s2, f + 1) && Delivered(s1, s2, f + 1, top1, top1, n)
      ensures SameBelow(s0, s2, f + 1) && Delivered(s0, s2, f + 1, top0, top1, n)
      ensures NilSlots(s2, top1 + top0 - f - 1, top1 + n)
    {
      forall j: nat | f + 1 <= j < top0 && j < f + 1 + n ensures Carries(SlotIn(s0, j), SlotIn(s2, j - (f + 1) + top1)) {
        assert Carries(SlotIn(s1, j), SlotIn(s2, j - (f + 1) + top1));
      }
      forall j: nat | top1 + top0 - f - 1 <= j < top1 + n ensures SlotIn(s2, j).data == Nil {
        var k: nat := j - top1 + (f + 1);
        assert Carries(SlotIn(s1, k), SlotIn(s2, k - (f + 1) + top1));
      }
    }

    function MetamethodOf(v: TValue, event: Data): TValue
      reads this`metatable, this`basicmt, this`fields
    {
      Tables().MetamethodOf(v, event)
    }

    lemma MetamethodHonest(v: TValue, event: Data)
      requires Inv()
      ensures Honest(MetamethodOf(v, event))
    {
      forall k ensures k in fields ==> Honest(fields[k]) {
        assert FieldAt(k);
      }
    }

    /** tryfuncTM: a hole is opened for the metamethod. */
    method TryFuncTM(f: nat) returns (ok: bool)
      requires Inv()
      modifies this`stack, this`stacktaint, this`writetaint, this`top
      ensures Kept() && ok == old(MetamethodOf(Get(f), TM_CALL)).data.Fun?
      ensures ok ==> Get(f).data == old(MetamethodOf(Get(f), TM_CALL)).data && top == old(top) + 1
      ensures ok ==> SameBelow(old(stack), stack, f) && Delivered(old(stack), stack, f, old(top), f + 1, -1)
    {
      hide Inv;
      var tm := MetamethodOf(Get(f), TM_CALL);
      MetamethodHonest(Get(f), TM_CALL);
      if !tm.data.Fun? {
        return false;
      }
      MoveUp(f);
      top := top + 1;
      ghost var moved := stack;
      SetObj2S(f, tm);
      assert forall j: nat :: j >= f + 1 ==> SlotIn(stack, j) == SlotIn(moved, j);
      ok := true;
    }

    /** The loop of tryfuncTM. */
    method MoveUp(f: nat)
      requires Inv()
      modifies this`stack, this`stacktaint, this`writetaint
      ensures Kept() && SameBelow(old(stack), stack, f) && Delivered(old(stack), stack, f, top, f + 1, -1)
    {
      hide Inv;
      var p := top;
      while p > f
        invariant Kept() && p <= top && (p < f ==> p == top && stack == old(stack))
        invariant p >= f ==> SameBelow(old(stack), stack, p + 1) && Delivered(old(stack), stack, p, top, p + 1, -1)
      {
        MoveSlot(p, p - 1);
        p := p - 1;
      }
    }

    /** luaD_precall, for Lua functions. */
    method Precall(f: nat, nresults: int, cont: Cont) returns (c: Option<nat>)
      requires Inv()
      modifies this`stack, this`stacktaint, this`writetaint, this`fixedtaint, this`top, this`base, this`func, this`frames
      ensures Kept() && c == old(CalleeIn(Tables(), Code(), Get(f)))
      ensures c.Some? ==> Pushed(old(frames), old(func), old(base), f, nresults, cont, frames, func)
      ensures c.Some? && old(top) > f ==> CurrentClosure() == c && Entered(old(stack), f, old(top), stack, func, base, Code())
      ensures c.Some? ==> top >= base && (Code().RoomyFor(c.value) ==> top >= base + Code().ParamsOf(c.value))
    {
      hide Inv, Delivered, SameBelow, NilSlots;
      Unmoved(stack, f, top);
      if !Get(f).data.Fun? {
        var ok := TryFuncTM(f);
        if !ok {
          return None;
        }
      }
      if !Get(f).data.Fun? || Get(f).data.c !in closures || closures[Get(f).data.c].proto !in protos {
        return None;
      }
      var cl := Get(f).data.c;
      var caller := Frame(func, base, top, stacktaint, nresults, cont);
      ghost var s1, top1 := stack, top;
      base := AdjustArgs(protos[closures[cl].proto], f);
      frames := frames + [caller];
      func := f;
      c := Some(cl);
      if old(top) > f {
        Arrived(old(stack), s1, f, old(top), top1, cl);
      }
    }

    lemma Arrived(s0: seq<TValue>, s1: seq<TValue>, f: nat, top0: nat, top1: nat, cl: nat)
      requires func == f && base > f && top0 > f && SameBelow(s1, stack, f + 1) && SlotIn(s1, f).data == Fun(cl)
      requires cl in closures && closures[cl].proto in protos
      requires var p := protos[closures[cl].proto];
               && Delivered(s1, stack, f + 1, top1, base, p.numparams)
               && (p.numparams <= p.maxstack ==> NilSlots(stack, base + top1 - f - 1, base + p.numparams))
      requires if SlotIn(s0, f).data.Fun? then s1 == s0 && top1 == top0
               else SameBelow(s0, s1, f) && Delivered(s0, s1, f, top0, f + 1, -1) && top1 == top0 + 1
      ensures CurrentClosure() == Some(cl) && Entered(s0, f, top0, stack, func, base, Code())
    {
      if !SlotIn(s0, f).data.Fun? {
        DeliveredVia(s0, s1, stack, f, top0, f + 1, 0, top1, base, protos[closures[cl].proto].numparams);
      }
    }

    method AdjustArgs(p: Proto, f: nat) returns (newbase: nat)
      requires Inv()
      modifies this`stack, this`stacktaint, this`writetaint, this`fixedtaint, this`top
      ensures Kept() && top == newbase + p.maxstack
      ensures old(top) > f ==>
                && newbase > f && SameBelow(old(stack), stack, f + 1)
                && Delivered(old(stack), stack, f + 1, old(top), newbase, p.numparams)
                && (p.numparams <= p.maxstack ==> NilSlots(stack, newbase + old(top) - f - 1, newbase + p.numparams))
    {
      hide Inv, Delivered, SameBelow, NilSlots;
      Unfix();
      newbase := f + 1;
      Unmoved(stack, f + 1, top);
      if !p.vararg {
        if top > newbase + p.numparams {
          top := newbase + p.numparams;
        }
      } else {
        newbase := AdjustVarargs(p.numparams, f);
      }
      ghost var s1, top1 := stack, top;
      NilFrom(top, newbase + p.maxstack);
      top := newbase + p.maxstack;
      if old(top) > f { Cleared(old(stack), s1, stack, f, old(top), newbase, top1, p); }
    }

    method Unfix()
      requires Inv()
      modifies this`fixedtaint
      ensures Kept() && fixedtaint.None?
    {
      SlotFacts();
      fixedtaint := None;
    }

    lemma Unmoved(s: seq<TValue>, f: nat, end: nat)
      ensures SameBelow(s, s, f) && Delivered(s, s, f, end, f, -1)
    {
    }

    /** A call: running a tainted closure taints the stack. */
    method CallClosure(f: nat, nresults: int, cont: Cont) returns (ok: bool)
      requires Inv()
      modifies this`stack, this`stacktaint, this`writetaint, this`fixedtaint, this`top, this`base, this`func, this`frames
      ensures Kept() && ok == old(CalleeIn(Tables(), Code(), Get(f))).Some?
      ensures ok ==> Pushed(old(frames), old(func), old(base), f, nresults, cont, frames, func)
      ensures ok && old(top) > f ==> Entered(old(stack), f, old(top), stack, func, base, Code())
      ensures ok ==> RunsAs(old(CalleeIn(Tables(), Code(), Get(f))).value, Code(), stacktaint, fixedtaint)
    {
      hide Inv, Delivered, SameBelow, NilSlots, Pushed;
      var c := Precall(f, nresults, cont);
      if c.None? {
        return false;
      }
      Enter(c.value);
      ok := true;
    }

    method CallTM(args: seq<TValue>, nresults: int, cont: Cont) returns (ok: bool)
      requires Inv() && |args| > 0 && forall i :: 0 <= i < |args| ==> Honest(args[i])
      modifies this`stack, this`stacktaint, this`writetaint, this`fixedtaint, this`top, this`base, this`func, this`frames
      ensures Kept()
      ensures (exists i :: 0 <= i < |args| && args[i].taint.Some?) ==> stacktaint.Some?
      ensures ok == CalleeIn(Tables(), Code(), args[0]).Some?
      ensures ok ==> Invoked(args, nresults, cont, old(Here()), Here())
    {
      hide Inv, Delivered, SameBelow, NilSlots, Pushed;
      var f := top;
      PushArgs(args);
      top := f + |args|;
      ghost var s1 := stack;
      FirstArg(args, s1, f);
      ok := CallClosure(f, nresults, cont);
      SameCallee(Tables(), Code(), args[0], SlotIn(s1, f));
      if ok { Handed(args, old(stack), s1, stack, f, if args[0].data.Fun? then 1 else 0, base, ParamsIn(stack, func, Code())); }
    }

    lemma FirstArg(args: seq<TValue>, s: seq<TValue>, f: nat)
      requires |args| > 0 && Delivered(args, s, 0, |args|, f, -1)
      ensures SlotIn(s, f).data == args[0].data
    {
      assert Carries(SlotIn(args, 0), SlotIn(s, 0 - 0 + f));
    }

    lemma Handed(args: seq<TValue>, s0: seq<TValue>, s1: seq<TValue>, s2: seq<TValue>, f: nat, skip: nat, res: nat, n: nat)
      requires Delivered(args, s1, 0, |args|, f, -1) && Delivered(s1, s2, f + skip, f + |args|, res, n)
      requires SameBelow(s0, s1, f) && SameBelow(s1, s2, f)
      ensures Delivered(args, s2, skip, |args|, res, n) && SameBelow(s0, s2, f)
    {
      DeliveredVia(args, s1, s2, 0, |args|, f, skip, f + |args|, res, n);
    }

    method PushArgs(args: seq<TValue>)
      requires Inv() && forall i :: 0 <= i < |args| ==> Honest(args[i])
      modifies this`stack, this`stacktaint, this`writetaint
      ensures Kept() && SameBelow(old(stack), stack, top) && Delivered(args, stack, 0, |args|, top, -1)
      ensures forall i :: 0 <= i < |args| && args[i].taint.Some? ==> stacktaint.Some?
    {
      hide Inv;
      var i := 0;
      while i < |args|
        invariant Kept() && 0 <= i <= |args| && SameBelow(old(stack), stack, top) && Delivered(args, stack, 0, i, top, -1)
        invariant forall j :: 0 <= j < i && args[j].taint.Some? ==> stacktaint.Some?
      {
        ghost var before := stack;
        SetObj2S(top + i, args[i]);
        Placed(args, before, stack, i, top);
        i := i + 1;
      }
    }

    lemma Placed(args: seq<TValue>, s0: seq<TValue>, s1: seq<TValue>, i: nat, at: nat)
      requires i < |args| && Delivered(args, s0, 0, i, at, -1) && SameBut(s0, s1, at + i) && Carries(args[i], SlotIn(s1, at + i))
      ensures Delivered(args, s1, 0, i + 1, at, -1)
    {
    }

    // -------------------------------------------------------------------------
    // Table access
    // -------------------------------------------------------------------------

    /** luaV_gettable: the value found goes to the stack with its taint; metamethods on the way do not taint. */
    method LuaVGetTable(t0: TValue, key: TValue, val: nat) returns (ok: bool)
      requires Inv() && Honest(t0) && Honest(key)
      modifies this`stack, this`stacktaint, this`writetaint, this`fixedtaint, this`top, this`base, this`func, this`frames
      ensures Kept()
      ensures match old(Tables().Index(t0, key.data, MAXTAGLOOP))
              case Field(v) => ok && Wrote(v, old(stack), old(stacktaint), old(fixedtaint), stack, stacktaint, val)
                               && top == old(top) && func == old(func) && base == old(base) && frames == old(frames) && fixedtaint == old(fixedtaint)
              case Handler(tm, obj) =>
                ok == old(CalleeIn(Tables(), Code(), tm)).Some? && (ok ==> Invoked([tm, obj, key], 1, Result(val), old(Here()), Here()))
              case Place(_) => false
              case Failed => !ok
    {
      hide Inv, Wrote, Invoked, Heap.MetamethodOf, CalleeIn, FieldIn, SlotIn, SameBut;
      Tables().AccessKinds(t0, key.data, MAXTAGLOOP);
      var t := t0;
      var loop := 0;
      while loop < MAXTAGLOOP
        invariant Kept() && Honest(t) && stack == old(stack) && stacktaint == old(stacktaint) && loop <= MAXTAGLOOP
        invariant top == old(top) && frames == old(frames) && func == old(func) && base == old(base)
        invariant writetaint == old(writetaint) && fixedtaint == old(fixedtaint)
        invariant Tables().Index(t, key.data, MAXTAGLOOP - loop) == old(Tables().Index(t0, key.data, MAXTAGLOOP))
      {
        var tm := MetamethodOf(t, TM_INDEX);
        MetamethodHonest(t, TM_INDEX);
        if t.data.Tab? {
          var res := FieldOf(t.data.t, key.data);
          if res.data != Nil || tm.data == Nil {
            FieldHonest(t.data.t, key.data);
            SetObj2S(val, res);
            return true;
          }
        } else if tm.data == Nil {
          return false;
        }
        if tm.data.Fun? {
          ok := CallTM([tm, t, key], 1, Result(val));
          return;
        }
        t := tm;
        loop := loop + 1;
      }
      ok := false;
    }

    lemma FieldHonest(t: nat, key: Data)
      requires Inv()
      ensures Honest(FieldOf(t, key))
    {
      assert FieldAt((t, key));
    }

    /** luaV_settable: the value goes into the table as it is; a tainted metamethod taints the stack. */
    method LuaVSetTable(t0: TValue, key: TValue, v: TValue) returns (ok: bool)
      requires Inv() && Honest(t0) && Honest(key) && Honest(v)
      modifies this`stack, this`stacktaint, this`writetaint, this`fixedtaint, this`top, this`base, this`func, this`frames, this`fields
      ensures Kept()
      ensures old(Tables().TaintedHop(t0, key.data, MAXTAGLOOP)) ==> stacktaint.Some?
      ensures match old(Tables().NewIndex(t0, key.data, MAXTAGLOOP))
              case Place(t) =>
                && ok && fields == old(fields)[(t, key.data) := v] && stack == old(stack)
                && (stacktaint != old(stacktaint) ==> old(Tables().TaintedHop(t0, key.data, MAXTAGLOOP)))
                && top == old(top) && func == old(func) && base == old(base) && frames == old(frames) && fixedtaint == old(fixedtaint)
              case Handler(tm, obj) =>
                && ok == old(CalleeIn(Tables(), Code(), tm)).Some? && fields == old(fields)
                && (ok ==> Invoked([tm, obj, key, v], 0, Discard, old(Here()), Here()))
              case Field(_) => false
              case Failed => !ok && fields == old(fields)
    {
      hide Inv, Invoked, Heap.MetamethodOf, Heap.NewIndex, Heap.TaintedHop, CalleeIn, Honest, FieldIn;
      Tables().AccessKinds(t0, key.data, MAXTAGLOOP);
      ghost var hop, m0 := Tables().TaintedHop(t0, key.data, MAXTAGLOOP), Here();
      var t := t0;
      var loop := 0;
      while loop < MAXTAGLOOP
        invariant Kept() && Honest(t) && fields == old(fields) && stack == old(stack) && loop <= MAXTAGLOOP
        invariant SameFrame(m0, Here())
        invariant Tables().NewIndex(t, key.data, MAXTAGLOOP - loop) == old(Tables().NewIndex(t0, key.data, MAXTAGLOOP))
        invariant hop ==> stacktaint.Some? || Tables().TaintedHop(t, key.data, MAXTAGLOOP - loop)
        invariant Tables().TaintedHop(t, key.data, MAXTAGLOOP - loop) ==> hop
        invariant stacktaint != old(stacktaint) ==> hop
      {
        Tables().AssignRound(t, key.data, MAXTAGLOOP - loop);
        var tm := MetamethodOf(t, TM_NEWINDEX);
        MetamethodHonest(t, TM_NEWINDEX);
        if t.data.Tab? {
          if key.data == Nil {
            return false;
          }
          if FieldOf(t.data.t, key.data).data != Nil || tm.data == Nil {
            SetField(t.data.t, key.data, v);
            return true;
          }
        } else if tm.data == Nil {
          return false;
        }
        if tm.data.Fun? {
          ok := CallNewIndex(tm, t, key, v, m0);
          return;
        }
        TaintBy(tm.taint);
        t := tm;
        loop := loop + 1;
      }
      Tables().NoAssignment(t, key.data);
      ok := false;
    }

    /** The stack gets the taint of the metamethod, which is then called. */
    method CallNewIndex(tm: TValue, t: TValue, key: TValue, v: TValue, ghost m0: Machine) returns (ok: bool)
      requires Inv() && Honest(tm) && Honest(t) && Honest(key) && Honest(v)
      requires SameFrame(m0, Here()) && stack == m0.stack && Tables() == m0.heap && Code() == m0.code
      modifies this`stack, this`stacktaint, this`writetaint, this`fixedtaint, this`top, this`base, this`func, this`frames
      ensures Kept() && ok == CalleeIn(m0.heap, m0.code, tm).Some? && (ok ==> Invoked([tm, t, key, v], 0, Discard, m0, Here()))
      ensures tm.taint.Some? ==> stacktaint.Some?
    {
      hide Inv, Invoked, CalleeIn;
      TaintBy(tm.taint);
      ghost var was := Here();
      ok := CallTM([tm, t, key, v], 0, Discard);
      if ok { SameCaller([tm, t, key, v], 0, Discard, was, m0, Here()); }
    }

    /** luaR_taintstack in mode rw. */
    method TaintBy(taint: Taint)
      requires Inv()
      modifies this`stacktaint, this`writetaint
      ensures Kept() && (taint.Some? ==> stacktaint.Some?) && (taint.None? ==> stacktaint == old(stacktaint))
    {
      SlotFacts();
      TaintStack(taint);
    }

    // -------------------------------------------------------------------------
    // Returns and tail calls
    // -------------------------------------------------------------------------

    /** luaD_poscall: the results move down over the function, and nil fills up what is wanted more. */
    method MoveResults(first0: nat, res0: nat, wanted: int) returns (res: nat)
      requires Inv()
      modifies this`stack, this`stacktaint, this`writetaint
      ensures Kept() && SameBelow(old(stack), stack, res0)
      ensures res0 <= first0 ==> Delivered(old(stack), stack, first0, top, res0, wanted)
      ensures res0 <= first0 ==> NilSlots(stack, res0 + (if first0 < top then top - first0 else 0), res0 + wanted)
    {
      hide Inv;
      var first := first0;
      res := res0;
      var i := wanted;
      while i != 0 && first < top
        invariant Kept() && first0 <= first && (first <= top || first == first0) && res == res0 + (first - first0) && i == wanted - (first - first0)
        invariant SameBelow(old(stack), stack, res0)
        invariant res0 <= first0 ==> forall j: nat :: first <= j ==> SlotIn(stack, j) == SlotIn(old(stack), j)
        invariant res0 <= first0 ==> Delivered(old(stack), stack, first0, first, res0, -1)
        decreases top - first
      {
        ghost var before := stack;
        MoveSlot(res, first);
        assert forall j: nat :: j < res ==> SlotIn(stack, j) == SlotIn(before, j);
        res, first, i := res + 1, first + 1, i - 1;
      }
      ghost var moved, copied := stack, res;
      res := FillNil(res, i);
      assert forall j: nat :: j < copied ==> SlotIn(stack, j) == SlotIn(moved, j);
    }

    method FillNil(res0: nat, n: int) returns (res: nat)
      requires Inv()
      modifies this`stack
      ensures Kept() && SameBelow(old(stack), stack, res0) && NilSlots(stack, res0, res0 + n)
      ensures res == if n > 0 then res0 + n else res0
    {
      hide Inv;
      res := res0;
      var i := n;
      while i > 0
        invariant Kept() && SameBelow(old(stack), stack, res0) && NilSlots(stack, res0, res)
        invariant res + i == res0 + n && (i >= 0 || res == res0) && res >= res0
      {
        SetValue(res, Nil, []);
        res, i := res + 1, i - 1;
      }
    }

    /** OP_RETURN: luaF_close, luaD_poscall, and what the caller does next. */
    method DoReturn(a: nat, b: nat) returns (ok: bool)
      requires Inv()
      modifies this`stack, this`stacktaint, this`writetaint, this`fixedtaint, this`top, this`base, this`func, this`frames, this`ups
      ensures Kept() && ok == (old(frames) != [])
      ensures ok ==> DidReturn(a, b, old(Here()), Here())
    {
      hide Inv, Moved, Returned, Continued, BackIn, ClosedUps, SlotIn;
      if frames == [] {
        return false;
      }
      if b != 0 {
        top := base + a + b - 1;
      }
      CloseUpvals(base);
      Leave(base + a);
      ok := true;
    }

    method Leave(first: nat)
      requires Inv() && frames != []
      modifies this`stack, this`stacktaint, this`writetaint, this`fixedtaint, this`top, this`base, this`func, this`frames
      ensures Kept() && frames == old(frames)[..|old(frames)| - 1]
      ensures var ci := old(frames)[|old(frames)| - 1];
              && func == ci.func && base == ci.base && (ci.nresults != LUA_MULTRET ==> top == ci.top)
              && (ci.cont == Plain ==> BackIn(stack, func, Code(), stacktaint, fixedtaint))
              && (old(func) <= first ==> Returned(old(stack), first, old(top), old(func), ci, stack))
    {
      hide Inv, Moved, Returned, Continued, BackIn, SlotIn;
      ghost var end := top;
      var ci, res0 := frames[|frames| - 1], func;
      PosCall(first);
      ghost var s1 := stack;
      Continue(ci, res0);
      if res0 <= first { Finished(old(stack), s1, first, end, res0, ci); }
    }

    /** luaD_poscall */
    method PosCall(first: nat)
      requires Inv() && frames != []
      modifies this`stack, this`stacktaint, this`writetaint, this`fixedtaint, this`top, this`base, this`func, this`frames
      ensures Kept() && frames == old(frames)[..|old(frames)| - 1]
      ensures func == old(frames)[|old(frames)| - 1].func && base == old(frames)[|old(frames)| - 1].base
      ensures old(func) <= first ==> Moved(old(stack), stack, first, old(top), old(func), old(frames)[|old(frames)| - 1].nresults)
      ensures old(frames)[|old(frames)| - 1].nresults != LUA_MULTRET ==> top == old(frames)[|old(frames)| - 1].top
    {
      hide Inv, Delivered, NilSlots, SameBelow;
      var ci, res0 := frames[|frames| - 1], func;
      Unfix();
      var res := MoveResults(first, res0, ci.nresults);
      frames := frames[..|frames| - 1];
      func, base, top := ci.func, ci.base, res;
      if ci.nresults != LUA_MULTRET {
        top := ci.top;
      }
    }

    /** What goes on after a call: re-entering the Lua caller, or the C code that made the call. */
    method Continue(ci: Frame, res0: nat)
      requires Inv()
      modifies this`stack, this`stacktaint, this`writetaint, this`fixedtaint
      ensures Kept() && Continued(old(stack), res0, ci)
      ensures ci.cont == Plain ==> BackIn(stack, func, Code(), stacktaint, fixedtaint)
    {
      hide Inv;
      match ci.cont {
        case Plain =>
          if CurrentClosure().Some? {
            Enter(CurrentClosure().value);
          }
        case Result(r) => MoveSlot(r, res0);
        case Discard =>
        case Iterate(cb) =>
          if Get(cb).data != Nil && cb > 0 {
            MoveSlot(cb - 1, cb);
          }
      }
    }

    ghost predicate Continued(s: seq<TValue>, res: nat, ci: Frame)
      reads this`stack
    {
      match ci.cont
      case Result(r) => Carries(SlotIn(s, res), SlotIn(stack, r))
      case Iterate(cb) =>
        if SlotIn(s, cb).data != Nil && cb > 0 then Carries(SlotIn(s, cb), SlotIn(stack, cb - 1)) && SameBut(s, stack, cb - 1)
        else stack == s
      case _ => stack == s
    }

    lemma Finished(s0: seq<TValue>, s1: seq<TValue>, first: nat, end: nat, res: nat, ci: Frame)
      requires Moved(s0, s1, first, end, res, ci.nresults) && Continued(s1, res, ci)
      ensures Returned(s0, first, end, res, ci, stack)
    {
      assert Carries(SlotIn(s0, first), SlotIn(s1, first - first + res)) || !(first < end && ci.nresults != 0);
      match ci.cont {
        case Iterate(cb) =>
          forall j: nat | first <= j < end && (ci.nresults < 0 || j < first + ci.nresults) && cb == res
            ensures Carries(SlotIn(s0, j), SlotIn(stack, j - first + res))
          {
            assert Carries(SlotIn(s0, j), SlotIn(s1, j - first + res));
          }
        case _ =>
      }
    }

    /** The loop of OP_TAILCALL. */
    method MoveDown(to: nat, from: nat, n: nat)
      requires Inv()
      modifies this`stack, this`stacktaint, this`writetaint
      ensures Kept() && SameBelow(old(stack), stack, to)
      ensures to <= from ==> Delivered(old(stack), stack, from, from + n, to, -1)
    {
      hide Inv;
      var aux := 0;
      while aux < n
        invariant Kept() && 0 <= aux <= n && SameBelow(old(stack), stack, to)
        invariant to <= from ==> forall j: nat :: from + aux <= j ==> SlotIn(stack, j) == SlotIn(old(stack), j)
        invariant to <= from ==> Delivered(old(stack), stack, from, from + aux, to, -1)
      {
        ghost var before := stack;
        MoveSlot(to + aux, from + aux);
        assert forall j: nat :: j < to + aux ==> SlotIn(stack, j) == SlotIn(before, j);
        aux := aux + 1;
      }
    }

    /** OP_TAILCALL: the new frame moves down over the one it replaces. */
    method DoTailCall(a: nat, b: nat) returns (ok: bool)
      requires Inv()
      modifies this`stack, this`stacktaint, this`writetaint, this`fixedtaint, this`top, this`base, this`func, this`frames, this`ups
      ensures Kept() && ok == old(CalleeIn(Tables(), Code(), Get(base + a))).Some?
      ensures ok ==> DidTailCall(a, b, old(Here()), Here())
    {
      hide Inv, Delivered, SameBelow, Pushed, Entered, Landed, Replaced, CalleeIn, ClosedUps;
      if b != 0 {
        top := base + a + b;
      }
      ghost var f, top0 := base + a, top;
      var oldfunc, oldbase := func, base;
      ghost var fv := Get(base + a);
      var c := Precall(base + a, LUA_MULTRET, Plain);
      if c.None? {
        return false;
      }
      FunCallee(old(Tables()), old(Code()), fv);
      PoppedIs(old(frames), old(func), old(base), f, LUA_MULTRET, Plain);
      ghost var m0, entered := old(Here()), stack;
      if top0 > f { EnteredBelow(old(stack), f, top0); }
      if top0 > f { Lands(old(stack), f, top0, c.value); }
      DropCaller(oldfunc, oldbase, c.value, old(stack), f, top0);
      TailCallDone(a, b, m0, Here(), entered);
      ok := true;
    }

    lemma EnteredBelow(s0: seq<TValue>, f: nat, top0: nat)
      requires Entered(s0, f, top0, stack, func, base, Code())
      ensures SameBelow(s0, stack, f)
    {
    }

    lemma TailCallDone(a: nat, b: nat, m0: Machine, m1: Machine, s: seq<TValue>)
      requires var f, top0 := m0.base + a, if b != 0 then m0.base + a + b else m0.top;
               && m1.frames == m0.frames && m1.func == m0.func
               && (top0 > f && m0.func <= f ==> Replaced(m0.stack, f, top0, m0.func, m1.stack, m1.func, m1.base, m1.code))
               && m0.Callee(m0.Register(a)).Some? && RunsAs(m0.Callee(m0.Register(a)).value, m1.code, m1.stacktaint, m1.fixedtaint)
               && (top0 > f ==> SameBelow(m0.stack, s, f)) && m1.ups == ClosedUps(m0.ups, s, m0.base)
      ensures DidTailCall(a, b, m0, m1)
    {
      hide Replaced, SameBelow, RunsAs, ClosedUps, CalleeIn;
    }

    /** The frame of the callee takes the place of its caller's. */
    method DropCaller(oldfunc: nat, oldbase: nat, cl: nat, ghost s0: seq<TValue>, ghost f: nat, ghost top0: nat)
      requires Inv() && frames != [] && func == f
      requires top0 > f ==> Landed(s0, stack, f, top0, base, top, cl, Code().ParamsOf(cl), Code().RoomyFor(cl))
      modifies this`stack, this`stacktaint, this`writetaint, this`fixedtaint, this`top, this`base, this`func, this`frames, this`ups
      ensures Kept() && frames == old(frames)[..|old(frames)| - 1] && func == oldfunc
      ensures top0 > f && oldfunc <= f ==> Replaced(s0, f, top0, oldfunc, stack, func, base, Code())
      ensures RunsAs(cl, Code(), stacktaint, fixedtaint) && ups == ClosedUps(old(ups), old(stack), oldbase)
    {
      hide Inv, Delivered, SameBelow, Landed, Replaced;
      ghost var s1, base1, top1 := stack, base, top;
      if top0 > f { LandedTop(s0, s1, f, top0, base1, top1, cl); }
      CloseUpvals(oldbase);
      SlideDown(oldfunc);
      frames := frames[..|frames| - 1];
      if top0 > f && oldfunc <= f { Slid(s0, s1, f, top0, base1, top1, oldfunc, cl); }
      Enter(cl);
    }

    lemma LandedTop(s0: seq<TValue>, s1: seq<TValue>, f: nat, top0: nat, base1: nat, top1: nat, cl: nat)
      requires Landed(s0, s1, f, top0, base1, top1, cl, Code().ParamsOf(cl), Code().RoomyFor(cl))
      ensures f < base1 <= top1
    {
    }

    /** A function has been entered: the value-level form of Entered, with the end of its frame. */
    ghost predicate Landed(s0: seq<TValue>, s1: seq<TValue>, f: nat, top0: nat, base1: nat, top1: nat, cl: nat, n: nat, roomy: bool) {
      && f < base1 <= top1 && SlotIn(s1, f).data == Fun(cl) && SameBelow(s0, s1, f)
      && Delivered(s0, s1, if SlotIn(s0, f).data.Fun? then f + 1 else f, top0, base1, n)
      && (SlotIn(s0, f).data.Fun? ==> SlotIn(s0, f).data == Fun(cl)) && (roomy ==> top1 >= base1 + n)
    }

    lemma Lands(s0: seq<TValue>, f: nat, top0: nat, cl: nat)
      requires Entered(s0, f, top0, stack, func, base, Code()) && CurrentClosure() == Some(cl) && base <= top
      requires Code().RoomyFor(cl) ==> top >= base + Code().ParamsOf(cl)
      requires SlotIn(s0, f).data.Fun? ==> SlotIn(s0, f).data == Fun(cl)
      ensures Landed(s0, stack, f, top0, base, top, cl, Code().ParamsOf(cl), Code().RoomyFor(cl))
    {
    }

    lemma Slid(s0: seq<TValue>, s1: seq<TValue>, f: nat, top0: nat, base1: nat, top1: nat, oldfunc: nat, cl: nat)
      requires oldfunc <= f && func == oldfunc && base == oldfunc + base1 - f
      requires Landed(s0, s1, f, top0, base1, top1, cl, Code().ParamsOf(cl), Code().RoomyFor(cl))
      requires SameBelow(s1, stack, oldfunc) && Delivered(s1, stack, f, top1, oldfunc, -1)
      ensures Replaced(s0, f, top0, oldfunc, stack, func, base, Code())
    {
      assert Carries(SlotIn(s1, f), SlotIn(stack, f - f + oldfunc));
      if Code().RoomyFor(cl) {
        var first, n := if SlotIn(s0, f).data.Fun? then f + 1 else f, Code().ParamsOf(cl);
        forall j: nat | first <= j < top0 && j < first + n ensures Carries(SlotIn(s0, j), SlotIn(stack, j - first + base)) {
          var k: nat := j - first + base1;
          assert Carries(SlotIn(s0, j), SlotIn(s1, k)) && Carries(SlotIn(s1, k), SlotIn(stack, k - f + oldfunc));
        }
      }
    }

    lemma PoppedIs(frames0: seq<Frame>, func0: nat, base0: nat, f: nat, nresults: int, cont: Cont)
      requires Pushed(frames0, func0, base0, f, nresults, cont, frames, func)
      ensures frames != [] && frames[..|frames| - 1] == frames0 && func == f
    {
    }

    /** The frame of the callee moves to where the caller's function was. */
    method SlideDown(oldfunc: nat)
      requires Inv()
      modifies this`stack, this`stacktaint, this`writetaint, this`top, this`base, this`func
      ensures Kept() && func == oldfunc && SameBelow(old(stack), stack, oldfunc)
      ensures base == if old(base) >= old(func) then oldfunc + (old(base) - old(func)) else oldfunc
      ensures oldfunc <= old(func) <= old(top) ==> Delivered(old(stack), stack, old(func), old(top), oldfunc, -1)
    {
      hide Inv, Delivered, SameBelow;
      var pfunc, n := func, if top > func then top - func else 0;
      base := if base >= pfunc then oldfunc + (base - pfunc) else oldfunc;
      MoveDown(oldfunc, pfunc, n);
      func, top := oldfunc, oldfunc + n;
    }

    // -------------------------------------------------------------------------
    // Closures, lists and varargs
    // -------------------------------------------------------------------------

    /** luaF_findupval, or the upvalue of the enclosing closure. */
    method Capture(fromStack: bool, i: nat) returns (u: nat)
      requires Inv()
      modifies this`ups
      ensures Kept() && Captured(fromStack, i, base, stack, func, Code(), ups, u)
      ensures MoreUps(old(ups), ups)
    {
      if !fromStack {
        return if Here().UpvalAt(i).Some? then Here().UpvalAt(i).value else 0;
      }
      if exists v :: v in ups && ups[v] == Open(base + i) {
        u :| u in ups && ups[u] == Open(base + i);
        return;
      }
      UpvalFacts();
      FreshNumber(ups.Keys);
      u :| u !in ups;
      ups := ups[u := Open(base + i)];
    }

    lemma UpvalFacts()
      requires forall u :: UpvalAt(u)
      ensures forall u :: u in ups && ups[u].Shut? ==> Honest(ups[u].v)
    {
      forall u | u in ups && ups[u].Shut? ensures Honest(ups[u].v) {
        assert UpvalAt(u);
      }
    }

    /** OP_CLOSURE: what tainted code creates is tainted. */
    method DoClosure(a: nat, proto: nat, captures: seq<(bool, nat)>)
      requires Inv()
      modifies this`stack, this`ups, this`closures
      ensures Kept() && DidClosure(a, proto, captures, old(Here()), Here())
    {
      hide Inv, DidClosure, Captures, MoreUps, SetTo, SameBut, Computed;
      ghost var m0 := Here();
      var env := if CurrentClosure().Some? && CurrentClosure().value in closures then closures[CurrentClosure().value].env else 0;
      var taint := TaintAlloc(true);
      FreshNumber(closures.Keys);
      var c: nat :| c !in closures;
      var list := CaptureAll(captures);
      closures := closures[c := Closure(taint, list, proto, env)];
      WritesStackTaint();
      Arith(base + a, Fun(c), []);
      SetIs(m0.(ups := ups, code := Code()), Here(), m0, base + a, Fun(c));
      ClosureDone(a, proto, captures, m0, Here(), c, taint, list, env);
    }

    lemma WritesStackTaint()
      requires Inv()
      ensures writetaint == stacktaint
    {
    }

    lemma SetIs(m: Machine, m1: Machine, m0: Machine, i: nat, d: Data)
      requires SetTo(m, m1, i, d, []) && m0.stack == m.stack && m0.stacktaint == m.stacktaint
      ensures SetTo(m0, m1, i, d, []) && SlotIn(m1.stack, i).data == d
    {
    }

    lemma ClosureDone(a: nat, proto: nat, captures: seq<(bool, nat)>, m0: Machine, m1: Machine, c: nat, taint: Taint, list: seq<nat>, env: nat)
      requires SetTo(m0, m1, m0.base + a, Fun(c), []) && SlotIn(m1.stack, m0.base + a).data == Fun(c) && c !in m0.code.closures
      requires m1.code == m0.code.(closures := m0.code.closures[c := Closure(taint, list, proto, env)])
      requires Captures(captures, m0.base, m0.stack, m0.func, m0.code, m1.ups, list) && MoreUps(m0.ups, m1.ups)
      requires var run := RunningIn(m0.stack, m0.func);
               run.Some? && run.value in m0.code.closures ==> env == m0.code.closures[run.value].env
      requires (m1.stacktaint.Some? ==> taint.Some?) && (m0.newgctaint.None? && m0.writetaint.Some? ==> taint == m0.writetaint)
      ensures DidClosure(a, proto, captures, m0, m1)
    {
      hide SetTo, Captures, MoreUps;
    }

    method CaptureAll(captures: seq<(bool, nat)>) returns (list: seq<nat>)
      requires Inv()
      modifies this`ups
      ensures Kept() && Captures(captures, base, stack, func, Code(), ups, list) && MoreUps(old(ups), ups)
    {
      hide Inv, Captured;
      list := [];
      var j := 0;
      while j < |captures|
        invariant Kept() && 0 <= j <= |captures| && MoreUps(old(ups), ups)
        invariant Captures(captures[..j], base, stack, func, Code(), ups, list)
      {
        ghost var ups0, list0 := ups, list;
        var u := Capture(captures[j].0, captures[j].1);
        list := list + [u];
        forall k | 0 <= k < j ensures Captured(captures[k].0, captures[k].1, base, stack, func, Code(), ups, list[k]) {
          assert captures[..j][k] == captures[k];
          StillCaptured(captures[k].0, captures[k].1, base, stack, func, Code(), ups0, ups, list0[k]);
        }
        j := j + 1;
      }
      assert captures[..j] == captures;
    }

    /** OP_SETLIST */
    method DoSetList(a: nat, n: nat, first: int)
      requires Inv()
      modifies this`fields
      ensures Kept()
      ensures if Get(base + a).data.Tab? then Filled(old(fields), fields, Get(base + a).data.t, first, n, stack, base + a) else fields == old(fields)
    {
      hide Inv;
      if !Get(base + a).data.Tab? {
        return;
      }
      var t := Get(base + a).data.t;
      ghost var s, at := stack, base + a;
      var i := n;
      while i > 0
        invariant Kept() && 0 <= i <= n
        invariant FilledFrom(old(fields), fields, t, first, i, n, s, at)
      {
        GetHonest(base + a + i);
        FillOne(old(fields), fields, t, first, i, n, s, at);
        SetField(t, Num(first + i), Get(base + a + i));
        i := i - 1;
      }
    }

    /** How many extra arguments the running function has, below its base. */
    function Extra(): nat
      reads this`stack, this`func, this`base, this`closures, this`protos
    {
      ExtraIn(stack, func, base, Code())
    }

    /** OP_VARARG: the extra arguments, as many as wanted, and nil for those there are not. */
    method DoVararg(a: nat, b: nat)
      requires Inv()
      modifies this`stack, this`stacktaint, this`writetaint, this`top
      ensures Kept() && SameBelow(old(stack), stack, base + a)
      ensures Delivered(old(stack), stack, base - old(Extra()), base, base + a, if b == 0 then -1 else b - 1)
      ensures NilSlots(stack, base + a + old(Extra()), base + a + b - 1)
      ensures top == if b == 0 then base + a + old(Extra()) else old(top)
    {
      hide Inv, SameBelow, Delivered, NilSlots;
      var n := Extra();
      var wanted: nat := if b == 0 then n else b - 1;
      if b == 0 {
        top := base + a + n;
      }
      CopyExtra(base - n, base + a, n, wanted);
      Wanted(old(stack), stack, base - n, n, base + a, b);
    }

    lemma Wanted(s: seq<TValue>, t: seq<TValue>, first: nat, n: nat, to: nat, b: nat)
      requires var wanted := if b == 0 then n else b - 1;
               Delivered(s, t, first, first + n, to, wanted) && NilSlots(t, to + n, to + wanted)
      ensures Delivered(s, t, first, first + n, to, if b == 0 then -1 else b - 1) && NilSlots(t, to + n, to + b - 1)
    {
    }

    /** The loop of OP_VARARG. */
    method CopyExtra(first: nat, to: nat, n: nat, wanted: nat)
      requires Inv() && first + n <= to
      modifies this`stack, this`stacktaint, this`writetaint
      ensures Kept() && SameBelow(old(stack), stack, to)
      ensures Delivered(old(stack), stack, first, first + n, to, wanted) && NilSlots(stack, to + n, to + wanted)
    {
      hide Inv, Delivered, NilSlots;
      var j := 0;
      NoneYet(stack, first, n, to);
      while j < wanted
        invariant Kept() && 0 <= j <= wanted && SameBelow(old(stack), stack, to)
        invariant Delivered(old(stack), stack, first, first + n, to, j) && NilSlots(stack, to + n, to + j)
      {
        ghost var before := stack;
        if j < n {
          MoveSlot(to + j, first + j);
        } else {
          SetValue(to + j, Nil, []);
        }
        OneMore(old(stack), before, stack, first, n, to, j);
        j := j + 1;
      }
    }

    lemma NoneYet(s: seq<TValue>, first: nat, n: nat, to: nat)
      ensures Delivered(s, s, first, first + n, to, 0) && NilSlots(s, to + n, to)
    {
    }

    lemma OneMore(s: seq<TValue>, t: seq<TValue>, u: seq<TValue>, first: nat, n: nat, to: nat, j: nat)
      requires first + n <= to && SameBelow(s, t, to) && SameBut(t, u, to + j)
      requires Delivered(s, t, first, first + n, to, j) && NilSlots(t, to + n, to + j)
      requires if j < n then Carries(SlotIn(t, first + j), SlotIn(u, to + j)) else SlotIn(u, to + j).data == Nil
      ensures Delivered(s, u, first, first + n, to, j + 1) && NilSlots(u, to + n, to + j + 1)
    {
      forall i: nat | first <= i < first + n && i < first + j + 1 ensures Carries(SlotIn(s, i), SlotIn(u, i - first + to)) {
        assert i < first + j ==> Carries(SlotIn(s, i), SlotIn(t, i - first + to));
      }
    }

    // -------------------------------------------------------------------------
    // Instructions and runs
    // -------------------------------------------------------------------------

    method StepValue(op: Op) returns (ok: bool)
      requires Inv() && PutsValue(op)
      modifies this
      ensures Kept() && Untouched(op, old(Here()), Here())
      ensures if ok then !Fails(op, old(Here())) && ValueEffect(op, old(Here()), Here()) else Fails(op, old(Here()))
    {
      hide Inv, Untouched, ValueEffect, Fails;
      if op.GetUpval? || op.SetUpval? {
        ok := StepUpval(op);
      } else {
        ComputesAlways(op, old(Here()));
        ok := true;
        if op.Move? || op.LoadK? { StepMove(op); }
        else if op.LoadBool? || op.Compute? { StepSet(op); }
        else { StepClear(op); }
      }
    }

    lemma ComputesAlways(op: Op, m: Machine)
      requires PutsValue(op) && !op.GetUpval? && !op.SetUpval?
      ensures !Fails(op, m)
    {
    }

    method StepMove(op: Op)
      requires Inv() && (op.Move? || op.LoadK?)
      modifies this
      ensures Kept() && Untouched(op, old(Here()), Here()) && ValueEffect(op, old(Here()), Here())
    {
      hide Inv, Wrote, Machine.OperandValue, Flows, SameBut;
      match op {
        case Move(a, b) => MoveSlot(base + a, base + b);
        case LoadK(a, k) =>
          OperandHonest(Const(k));
          SetObj2S(base + a, OperandValue(Const(k)));
      }
    }

    method StepUpval(op: Op) returns (ok: bool)
      requires Inv() && (op.GetUpval? || op.SetUpval?)
      modifies this
      ensures Kept() && Untouched(op, old(Here()), Here())
      ensures if ok then !Fails(op, old(Here())) && ValueEffect(op, old(Here()), Here()) else Fails(op, old(Here()))
    {
      hide Inv, Wrote, UpvalIn, Machine.UpvalAt, UpvalSet, Flows, SameBut;
      match op {
        case GetUpval(a, b) => ok := DoGetUpval(a, b);
        case SetUpval(a, b) => ok := DoSetUpval(a, b);
      }
    }

    method StepSet(op: Op)
      requires Inv() && (op.LoadBool? || op.Compute?)
      modifies this
      ensures Kept() && Untouched(op, old(Here()), Here()) && ValueEffect(op, old(Here()), Here())
    {
      hide Inv, SetTo, SameBut, Computed;
      match op {
        case LoadBool(a, b) => Arith(base + a, Bool(b), []);
        case Compute(a, d, operands) => DoCompute(a, d, operands);
      }
    }

    method StepClear(op: Op)
      requires Inv() && (op.LoadNil? || op.NewTable?)
      modifies this
      ensures Kept() && Untouched(op, old(Here()), Here()) && ValueEffect(op, old(Here()), Here())
    {
      hide Inv, NilSlots, DidNewTable;
      match op {
        case LoadNil(a, b) => NilFrom(base + a, base + b + 1);
        case NewTable(a) => DoNewTable(a);
      }
    }

    method DoCompute(a: nat, d: Data, operands: seq<nat>)
      requires Inv()
      modifies this`stack
      ensures Kept() && SetTo(old(Here()), Here(), base + a, d, [])
      ensures forall r :: r in operands ==> old(Here()).Register(r).deps <= Get(base + a).deps
    {
      hide Inv, SameBut;
      var slots := Registers(base, operands);
      Arith(base + a, d, slots);
      forall r | r in operands ensures old(Here()).Register(r).deps <= Get(base + a).deps {
        var i :| 0 <= i < |operands| && operands[i] == r;
        assert slots[i] == base + r;
      }
    }

    method DoNewTable(a: nat)
      requires Inv()
      modifies this`stack, this`objtaint
      ensures Kept() && DidNewTable(a, old(Here()), Here())
    {
      hide Inv;
      ghost var m0 := Here();
      var taint := TaintAlloc(false);
      FreshNumber(objtaint.Keys + metatable.Keys + (set k | k in fields :: k.0));
      var r: nat :| r !in objtaint.Keys + metatable.Keys + (set k | k in fields :: k.0);
      assert forall key :: (r, key) in fields ==> (r, key).0 == r;
      objtaint := objtaint[r := taint];
      Arith(base + a, Tab(r), []);
    }

    method StepAccess(op: Op) returns (ok: bool)
      requires Inv() && Accesses(op)
      modifies this
      ensures Kept() && Untouched(op, old(Here()), Here())
      ensures if ok then !Fails(op, old(Here())) && AccessEffect(op, old(Here()), Here()) else Fails(op, old(Here()))
    {
      hide Inv, Untouched, AccessEffect, Fails;
      if op.GetTable? || op.SetTable? { ok := StepTable(op); } else { ok := StepMethod(op); }
    }

    method StepTable(op: Op) returns (ok: bool)
      requires Inv() && (op.GetTable? || op.SetTable?)
      modifies this
      ensures Kept() && Untouched(op, old(Here()), Here())
      ensures if ok then !Fails(op, old(Here())) && AccessEffect(op, old(Here()), Here()) else Fails(op, old(Here()))
    {
      hide Inv, Wrote, Invoked, Machine.OperandValue, Heap.MetamethodOf, Heap.Index, Heap.NewIndex, Heap.TaintedHop, CalleeIn;
      match op {
        case GetTable(a, t, key) =>
          OperandHonest(t);
          OperandHonest(key);
          ok := LuaVGetTable(OperandValue(t), OperandValue(key), base + a);
        case SetTable(t, key, v) =>
          OperandHonest(t);
          OperandHonest(key);
          OperandHonest(v);
          ok := LuaVSetTable(OperandValue(t), OperandValue(key), OperandValue(v));
      }
    }

    method StepMethod(op: Op) returns (ok: bool)
      requires Inv() && (op.SelfOp? || op.BinTM?)
      modifies this
      ensures Kept() && Untouched(op, old(Here()), Here())
      ensures if ok then !Fails(op, old(Here())) && AccessEffect(op, old(Here()), Here()) else Fails(op, old(Here()))
    {
      hide Inv, DidSelf, DidBinTM, FailsBinTM, FailsAccess, Heap.Index, SelfKey;
      match op {
        case SelfOp(a, b, key) => ok := DoSelf(a, b, key);
        case BinTM(a, left, right, event) => ok := DoBinTM(a, left, right, event);
      }
    }

    method StepTransfer(op: Op) returns (ok: bool)
      requires Inv() && Transfers(op)
      modifies this
      ensures Kept() && Untouched(op, old(Here()), Here())
      ensures if ok then !Fails(op, old(Here())) && TransferEffect(op, old(Here()), Here()) else Fails(op, old(Here()))
    {
      hide Inv, Untouched, TransferEffect, Fails;
      if op.Call? || op.TForLoop? { ok := StepCall(op); } else { ok := StepLeave(op); }
    }

    method StepCall(op: Op) returns (ok: bool)
      requires Inv() && (op.Call? || op.TForLoop?)
      modifies this
      ensures Kept() && Untouched(op, old(Here()), Here())
      ensures if ok then !Fails(op, old(Here())) && TransferEffect(op, old(Here()), Here()) else Fails(op, old(Here()))
    {
      hide Inv, DidCall, Iterated, CalleeIn;
      match op {
        case Call(a, b, c) => ok := DoCall(a, b, c);
        case TForLoop(a, c) => ok := DoTForLoop(a, c);
      }
    }

    method StepLeave(op: Op) returns (ok: bool)
      requires Inv() && (op.TailCall? || op.Return?)
      modifies this
      ensures Kept() && Untouched(op, old(Here()), Here())
      ensures if ok then !Fails(op, old(Here())) && TransferEffect(op, old(Here()), Here()) else Fails(op, old(Here()))
    {
      hide Inv, DidTailCall, DidReturn, CalleeIn;
      match op {
        case TailCall(a, b) => ok := DoTailCall(a, b);
        case Return(a, b) => ok := DoReturn(a, b);
      }
    }

    /** OP_CALL */
    method DoCall(a: nat, b: nat, c: nat) returns (ok: bool)
      requires Inv()
      modifies this`stack, this`stacktaint, this`writetaint, this`fixedtaint, this`top, this`base, this`func, this`frames
      ensures Kept() && ok == old(CalleeIn(Tables(), Code(), Get(base + a))).Some?
      ensures ok ==> DidCall(a, b, c, old(Here()), Here())
    {
      hide Inv, Entered, Pushed, CalleeIn, RunsAs;
      if b != 0 {
        top := base + a + b;
      }
      ok := CallClosure(base + a, c - 1, Plain);
    }

    /** One instruction of a Lua function.  `ok` is false when it raises an error, which the state before it decides; the
        run ends there. */
    method Step(op: Op) returns (ok: bool)
      requires Inv()
      modifies this
      ensures Kept()
      ensures if ok then !Fails(op, old(Here())) && Effect(op, old(Here()), Here()) else Fails(op, old(Here()))
    {
      hide Inv, ValueEffect, AccessEffect, TransferEffect, OtherEffect, Fails, Untouched;
      if PutsValue(op) {
        ok := StepValue(op);
      } else if Accesses(op) {
        ok := StepAccess(op);
      } else if Transfers(op) {
        ok := StepTransfer(op);
      } else {
        StepOther(op);
        NeverFails(op, old(Here()));
        ok := true;
      }
    }

    lemma NeverFails(op: Op, m: Machine)
      requires !PutsValue(op) && !Accesses(op) && !Transfers(op)
      ensures !Fails(op, m)
    {
    }

    method StepOther(op: Op)
      requires Inv() && !PutsValue(op) && !Accesses(op) && !Transfers(op)
      modifies this
      ensures Kept() && Untouched(op, old(Here()), Here()) && OtherEffect(op, old(Here()), Here())
    {
      hide Inv, Untouched, OtherEffect;
      if op.Concat? || op.ForLoop? || op.ForPrep? {
        StepArith(op);
      } else if op.SetList? || op.Close? {
        StepFill(op);
      } else {
        StepLast(op);
      }
    }

    method StepArith(op: Op)
      requires Inv() && (op.Concat? || op.ForLoop? || op.ForPrep?)
      modifies this
      ensures Kept() && Untouched(op, old(Here()), Here()) && OtherEffect(op, old(Here()), Here())
    {
      hide Inv, Computed, SetTo, Span, SameBut;
      match op {
        case Concat(a, b, c, d) => DoConcat(a, b, c, d);
        case ForLoop(a, d) => DoForLoop(a, d);
        case ForPrep(a, d) => Arith(base + a, d, [base + a, base + a + 2]);
      }
    }

    method StepFill(op: Op)
      requires Inv() && (op.SetList? || op.Close?)
      modifies this
      ensures Kept() && Untouched(op, old(Here()), Here()) && OtherEffect(op, old(Here()), Here())
    {
      hide Inv, Filled, ClosedUps, UpvalIn;
      match op {
        case SetList(a, n, first) => DoSetList(a, n, first);
        case Close(a) => CloseUpvals(base + a);
      }
    }

    method StepLast(op: Op)
      requires Inv() && (op.MakeClosure? || op.Vararg?)
      modifies this
      ensures Kept() && Untouched(op, old(Here()), Here()) && OtherEffect(op, old(Here()), Here())
    {
      hide Inv, Delivered, SameBelow, NilSlots, DidClosure, ExtraIn;
      match op {
        case MakeClosure(a, proto, captures) => DoClosure(a, proto, captures);
        case Vararg(a, b) => DoVararg(a, b);
      }
    }

    method Arith(i: nat, d: Data, operands: seq<nat>)
      requires Inv()
      modifies this`stack
      ensures Kept() && SetTo(old(Here()), Here(), i, d, operands)
      ensures Computed(old(stack), operands, d, Get(i), stacktaint) && SameBut(old(stack), stack, i)
    {
      hide Inv;
      SetValue(i, d, operands);
    }

    /** OP_CONCAT: the result is put over the first operand and then where it is wanted. */
    method DoConcat(a: nat, b: nat, c: nat, d: Data)
      requires Inv()
      modifies this`stack, this`stacktaint, this`writetaint
      ensures Kept() && Computed(old(stack), Span(base + b, base + c), d, Get(base + a), old(stacktaint))
      ensures stacktaint == old(stacktaint) && forall j: nat :: j != base + a && j != base + b ==> SlotIn(stack, j) == SlotIn(old(stack), j)
    {
      hide Inv;
      var from := base + b;
      Arith(from, d, Span(from, base + c));
      MoveSlot(base + a, from);
    }

    /** OP_FORLOOP, when the loop goes on: the new index is also the new value of the loop variable. */
    method DoForLoop(a: nat, d: Data)
      requires Inv()
      modifies this`stack
      ensures Kept()
      ensures Computed(old(stack), [base + a, base + a + 2], d, Get(base + a), old(stacktaint))
      ensures Computed(old(stack), [base + a, base + a + 2], d, Get(base + a + 3), old(stacktaint))
      ensures forall j: nat :: j != base + a && j != base + a + 3 ==> SlotIn(stack, j) == SlotIn(old(stack), j)
    {
      hide Inv;
      var operands := [base + a, base + a + 2];
      Arith(base + a, d, operands);
      assert operands[0] == base + a && operands[1] == base + a + 2;
      Arith(base + a + 3, d, [base + a]);
      assert [base + a][0] == base + a;
    }

    /** OP_TFORLOOP: a copy of the iterator is called with copies of the state and the control variable. */
    method DoTForLoop(a: nat, c: nat) returns (ok: bool)
      requires Inv()
      modifies this`stack, this`stacktaint, this`writetaint, this`fixedtaint, this`top, this`base, this`func, this`frames
      ensures Kept()
      ensures ok == old(CalleeIn(Tables(), Code(), Get(base + a))).Some?
      ensures ok ==> Iterated(old(base) + a, c, old(Here()), Here())
    {
      hide Inv, Delivered, SameBelow, NilSlots, Pushed;
      ghost var ra := base + a;
      var cb := base + a + 3;
      CopyLoop(base + a);
      top := cb + 3;
      ghost var s1 := stack;
      CopiedFirst(old(stack), s1, ra);
      SameCallee(Tables(), Code(), SlotIn(old(stack), ra), SlotIn(s1, cb));
      ok := CallClosure(cb, c, Iterate(cb));
      if ok {
        ViaCopy(old(stack), s1, stack, ra, if SlotIn(s1, cb).data.Fun? then 1 else 0, base, ParamsIn(stack, func, Code()));
      }
    }

    method CopyLoop(ra: nat)
      requires Inv()
      modifies this`stack, this`stacktaint, this`writetaint
      ensures Kept() && SameBelow(old(stack), stack, ra + 3) && Delivered(old(stack), stack, ra, ra + 3, ra + 3, -1)
    {
      hide Inv;
      MoveSlot(ra + 5, ra + 2);
      MoveSlot(ra + 4, ra + 1);
      MoveSlot(ra + 3, ra);
    }

    lemma CopiedFirst(s0: seq<TValue>, s1: seq<TValue>, ra: nat)
      requires Delivered(s0, s1, ra, ra + 3, ra + 3, -1)
      ensures SlotIn(s1, ra + 3).data == SlotIn(s0, ra).data
    {
      assert Carries(SlotIn(s0, ra), SlotIn(s1, ra - ra + (ra + 3)));
    }

    lemma ViaCopy(s0: seq<TValue>, s1: seq<TValue>, s2: seq<TValue>, ra: nat, skip: nat, res: nat, n: nat)
      requires SameBelow(s0, s1, ra + 3) && Delivered(s0, s1, ra, ra + 3, ra + 3, -1)
      requires SameBelow(s1, s2, ra + 3) && Delivered(s1, s2, ra + 3 + skip, ra + 6, res, n)
      ensures SameBelow(s0, s2, ra + 3) && Delivered(s0, s2, ra + skip, ra + 3, res, n)
    {
      DeliveredVia(s0, s1, s2, ra, ra + 3, ra + 3, skip, ra + 6, res, n);
    }

    /** OP_SELF */
    method DoSelf(a: nat, b: nat, key: Operand) returns (ok: bool)
      requires Inv()
      modifies this`stack, this`stacktaint, this`writetaint, this`fixedtaint, this`top, this`base, this`func, this`frames
      ensures Kept()
      ensures ok == !FailsAccess(old(Tables()).Index(old(Get(base + b)), SelfKey(a, b, key, old(Here())), MAXTAGLOOP), old(Here()))
      ensures ok ==> DidSelf(a, b, key, old(Here()), Here())
    {
      hide Inv, Wrote, Flows, Invoked, Machine.OperandValue, Heap.MetamethodOf, Heap.Index, Pushed, DidSelf, SelfKey, CalleeIn;
      ghost var ra, h, m0 := base + a, Tables(), Here();
      KeepObject(a, b, key);
      OperandHonest(key);
      GetHonest(base + b);
      ghost var m1, t1, k1 := Here(), Get(base + b), OperandValue(key);
      h.IndexSame(m0.Register(b), t1, k1.data, MAXTAGLOOP);
      ok := LuaVGetTable(Get(base + b), OperandValue(key), base + a);
      GetHonest(ra);
      if ok {
        SelfDone(a, b, key, m0, m1, t1, k1, Here());
      }
    }

    /** The object is copied above the slot for the method, and then the key is read. */
    method KeepObject(a: nat, b: nat, key: Operand)
      requires Inv()
      modifies this`stack, this`stacktaint, this`writetaint
      ensures Kept() && SameBut(old(stack), stack, base + a + 1) && Flows(old(Get(base + b)), Get(base + a + 1), old(stacktaint))
      ensures Get(base + b).data == old(Get(base + b)).data && (old(Get(base + b)).taint.Some? ==> stacktaint.Some?)
      ensures OperandValue(key).data == SelfKey(a, b, key, old(Here()))
    {
      hide Inv, Machine.OperandValue;
      ghost var m0 := Here();
      GetHonest(base + b);
      MoveSlot(base + a + 1, base + b);
      SameKey(m0.(stack := PutIn(m0.stack, m0.base + a + 1, m0.Register(b))), Here(), key);
    }

    lemma SameKey(m0: Machine, m1: Machine, key: Operand)
      requires m1.func == m0.func && m1.base == m0.base && m1.code == m0.code
      requires forall j: nat :: SlotIn(m1.stack, j).data == SlotIn(m0.stack, j).data
      ensures m1.OperandValue(key).data == m0.OperandValue(key).data
    {
    }

    lemma SelfDone(a: nat, b: nat, key: Operand, m0: Machine, m1: Machine, t1: TValue, k1: TValue, m2: Machine)
      requires var obj, ra := m0.Register(b), m0.base + a;
               && SameBut(m0.stack, m1.stack, ra + 1) && Flows(obj, SlotIn(m1.stack, ra + 1), m0.stacktaint)
               && SameFrame(m0, m1) && m1.heap == m0.heap && m1.code == m0.code
               && (obj.taint.Some? ==> m2.stacktaint.Some?)
               && match m0.heap.Index(obj, SelfKey(a, b, key, m0), MAXTAGLOOP)
                  case Field(v) =>
                    && Wrote(v, m1.stack, m1.stacktaint, m1.fixedtaint, m2.stack, m2.stacktaint, ra) && SameFrame(m1, m2)
                    && (SlotIn(m2.stack, ra).taint.Some? ==> m2.stacktaint.Some?)
                  case Handler(tm, o) => exists o1 :: Invoked([tm, o1, k1], 1, Result(ra), m1, m2)
                  case _ => false
      ensures DidSelf(a, b, key, m0, m2)
    {
      hide Pushed, Delivered, Heap.Index, SelfKey, CalleeIn;
    }

    method DoGetUpval(a: nat, b: nat) returns (ok: bool)
      requires Inv()
      modifies this`stack, this`stacktaint, this`writetaint
      ensures Kept()
      ensures ok == old(Here()).UpvalAt(b).Some?
      ensures ok ==> Wrote(UpvalIn(ups, old(stack), old(Here()).UpvalAt(b).value), old(stack), old(stacktaint), fixedtaint, stack, stacktaint, base + a)
    {
      if CurrentClosure().None? || CurrentClosure().value !in closures || b >= |closures[CurrentClosure().value].ups| {
        return false;
      }
      var u := closures[CurrentClosure().value].ups[b];
      UpvalHonest(u);
      SetObj2S(base + a, UpvalValue(u));
      ok := true;
    }

    method DoSetUpval(a: nat, b: nat) returns (ok: bool)
      requires Inv()
      modifies this`stack, this`ups
      ensures Kept()
      ensures ok == old(Here()).UpvalAt(b).Some?
      ensures ok ==> UpvalSet(old(ups), old(stack), old(Here()).UpvalAt(b).value, old(Get(base + a)), ups, stack)
    {
      if CurrentClosure().None? || CurrentClosure().value !in closures || b >= |closures[CurrentClosure().value].ups| {
        return false;
      }
      SetUpvalue(closures[CurrentClosure().value].ups[b], base + a);
      ok := true;
    }

    /** call_binTM: the metamethod of the first operand, or of the second. */
    method DoBinTM(a: nat, left: Operand, right: Operand, event: Data) returns (ok: bool)
      requires Inv()
      modifies this`stack, this`stacktaint, this`writetaint, this`fixedtaint, this`top, this`base, this`func, this`frames
      ensures Kept()
      ensures ok ==> !FailsBinTM(left, right, event, old(Here())) && DidBinTM(a, left, right, event, old(Here()), Here())
      ensures !ok ==> FailsBinTM(left, right, event, old(Here()))
    {
      hide Inv, Invoked, Machine.OperandValue, Heap.MetamethodOf, CalleeIn;
      OperandHonest(left);
      OperandHonest(right);
      var p1, p2 := OperandValue(left), OperandValue(right);
      MetamethodHonest(p1, event);
      MetamethodHonest(p2, event);
      var tm := MetamethodOf(p1, event);
      if tm.data == Nil {
        tm := MetamethodOf(p2, event);
      }
      if tm.data == Nil {
        return false;
      }
      ok := CallTM([tm, p1, p2], 1, Result(base + a));
    }

    /** Any sequence of instructions, up to the first error: in mode rw the write taint is the stack taint, a
        tainted stack stays tainted, a tainted slot means a tainted stack, and whatever was moved or computed
        from a tainted source is tainted. */
    method Execute(ops: seq<Op>) returns (n: nat, ghost trace: seq<Machine>)
      requires Inv()
      modifies this
      ensures Kept() && n <= |ops| && |trace| == n + 1 && trace[0] == old(Here())
      ensures forall k :: 0 <= k < n ==> !Fails(ops[k], trace[k]) && Effect(ops[k], trace[k], trace[k + 1])
      ensures if n < |ops| then Fails(ops[n], trace[n]) else trace[n] == Here()
    {
      hide Inv, Effect, Fails;
      n := 0;
      trace := [Here()];
      while n < |ops|
        invariant Kept() && n <= |ops| && |trace| == n + 1 && trace[0] == old(Here()) && trace[n] == Here()
        invariant forall k :: 0 <= k < n ==> !Fails(ops[k], trace[k]) && Effect(ops[k], trace[k], trace[k + 1])
      {
        var ok := Step(ops[n]);
        if !ok {
          return;
        }
        trace := trace + [Here()];
        n := n + 1;
      }
    }

    /** What the invariant says to an observer. */
    lemma TaintMeaning(i: nat, k: (nat, Data), u: nat)
      requires Inv()
      ensures writetaint == stacktaint
      ensures Get(i).deps != {} ==> Get(i).taint.Some? && stacktaint.Some?
      ensures k in fields && fields[k].deps != {} ==> fields[k].taint.Some?
      ensures UpvalValue(u).deps != {} ==> UpvalValue(u).taint.Some?
    {
      GetHonest(i);
      assert FieldAt(k);
      UpvalHonest(u);
    }
  }
}
