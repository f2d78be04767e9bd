/** Call frames of one thread: entering, leaving, tail calls and protected calls (ldo.c), and the
    open-call counter every closure carries. */
module LuaCalls {

  const MULTRET: int := -1
  const MINSTACK: nat := 100
  const MAXCALLS: nat := 20000

  /** A closure as a call sees it; `nopencalls` is kept apart, in ThreadState. */
  datatype Closure = Closure(id: nat, isC: bool, isVararg: bool, numparams: nat, maxstacksize: nat)

  /** A stack slot.  `Callable` is a value that is not a function but has a `__call` metamethod. */
  datatype Value = Nil | Function(cl: Closure) | Callable(tm: Closure) | Plain(n: int) | Message(e: Failure)

  /** Why a call cannot be made: nothing to call, too many frames, or too many while an overflow is being handled. */
  datatype Failure = AttemptToCall | StackOverflow | ErrorInErrorHandling

  datatype CallInfo = CallInfo(func: nat, base: nat, top: nat, nresults: int, tailcalls: nat)

  datatype Called = PCRLUA | PCRC | Error(e: Failure)

  /** The stack as an array of slots that starts out all nil. */
  function Slot(s: seq<Value>, i: nat): Value {
    if i < |s| then s[i] else Nil
  }

  function Stored(s: seq<Value>, i: nat, v: Value): (t: seq<Value>)
    ensures forall j: nat :: Slot(t, j) == if j == i then v else Slot(s, j)
  {
    if i < |s| then s[i := v] else s + seq(i - |s|, _ => Nil) + [v]
  }

  ghost predicate SameBelow(s: seq<Value>, t: seq<Value>, m: nat) {
    forall i: nat :: i < m ==> Slot(t, i) == Slot(s, i)
  }

  /** One frame on top of another: its function sits in a register of the frame below. */
  ghost predicate OnTop(frames: seq<CallInfo>, s: seq<Value>, k: nat) {
    1 <= k < |frames| ==>
      && frames[k - 1].base <= frames[k].func < frames[k].base && Slot(s, frames[k].func).Function?
      && frames[k].nresults >= MULTRET
  }

  ghost predicate Framed(frames: seq<CallInfo>, s: seq<Value>, n: nat) {
    n < |frames| && forall k: nat :: 1 <= k <= n ==> OnTop(frames, s, k)
  }

  /** How many of the frames 1 to n hold c in their function slot. */
  ghost function Holding(c: Closure, frames: seq<CallInfo>, s: seq<Value>, n: nat): nat
    requires n < |frames|
  {
    if n == 0 then 0
    else Holding(c, frames, s, n - 1) + if Slot(s, frames[n].func) == Function(c) then 1 else 0
  }

  function Opens(calls: map<Closure, nat>, c: Closure): nat {
    if c in calls then calls[c] else 0
  }

  /** The accounting property: each closure's counter is the number of frames holding it. */
  ghost predicate Counted(calls: map<Closure, nat>, frames: seq<CallInfo>, s: seq<Value>, n: nat) {
    n < |frames| && forall c :: Opens(calls, c) == Holding(c, frames, s, n)
  }

  /** The invariant of a thread with n + 1 active frames. */
  ghost predicate Accounted(calls: map<Closure, nat>, frames: seq<CallInfo>, s: seq<Value>, n: nat) {
    Framed(frames, s, n) && Counted(calls, frames, s, n)
  }

  lemma {:induction false} FuncsBelow(frames: seq<CallInfo>, s: seq<Value>, k: nat, n: nat)
    requires Framed(frames, s, n) && k <= n
    ensures frames[k].base <= frames[n].base
    ensures 1 <= k ==> frames[k].func < frames[n].base && frames[k].func <= frames[n].func
    decreases n - k
  {
    if k < n {
      assert OnTop(frames, s, k + 1);
      FuncsBelow(frames, s, k + 1, n);
    }
    assert OnTop(frames, s, k);
  }

  /** Frames 0 to n are those of f in g, and their function slots have not been touched. */
  ghost predicate Kept(f: seq<CallInfo>, s: seq<Value>, g: seq<CallInfo>, t: seq<Value>, n: nat) {
    && n < |f| && n < |g|
    && (forall k :: 0 <= k <= n ==> g[k].func == f[k].func && g[k].base == f[k].base)
    && (forall k :: 1 <= k <= n ==> Slot(t, f[k].func) == Slot(s, f[k].func))
  }

  lemma {:induction false} HoldingKept(c: Closure, f: seq<CallInfo>, s: seq<Value>,
                                       g: seq<CallInfo>, t: seq<Value>, n: nat)
    requires Kept(f, s, g, t, n)
    ensures Holding(c, g, t, n) == Holding(c, f, s, n)
  {
    if n > 0 {
      HoldingKept(c, f, s, g, t, n - 1);
    }
  }

  lemma {:induction false} HoldingMonotone(c: Closure, f: seq<CallInfo>, s: seq<Value>, m: nat, n: nat)
    requires m <= n < |f|
    ensures Holding(c, f, s, m) <= Holding(c, f, s, n)
  {
    if m < n {
      HoldingMonotone(c, f, s, m, n - 1);
    }
  }

  /** Writes at or above the base of frame n leave it and the frames below it as they were. */
  lemma KeptAbove(f: seq<CallInfo>, s: seq<Value>, g: seq<CallInfo>, t: seq<Value>, n: nat)
    requires Framed(f, s, n) && n < |g| && g[..n + 1] == f[..n + 1]
    requires SameBelow(s, t, f[n].base)
    ensures Kept(f, s, g, t, n)
    ensures Framed(g, t, n)
  {
    forall k | 0 <= k <= n ensures g[k] == f[k] {
      assert g[..n + 1][k] == f[..n + 1][k];
    }
    forall k | 1 <= k <= n
      ensures Slot(t, f[k].func) == Slot(s, f[k].func) && OnTop(g, t, k)
    {
      FuncsBelow(f, s, k, n);
      assert OnTop(f, s, k);
    }
  }

  lemma CountedKept(calls: map<Closure, nat>, f: seq<CallInfo>, s: seq<Value>,
                    g: seq<CallInfo>, t: seq<Value>, n: nat)
    requires Counted(calls, f, s, n) && Kept(f, s, g, t, n)
    ensures Counted(calls, g, t, n)
  {
    forall c ensures Opens(calls, c) == Holding(c, g, t, n) {
      HoldingKept(c, f, s, g, t, n);
    }
  }

  lemma CountedPush(calls: map<Closure, nat>, f: seq<CallInfo>, s: seq<Value>,
                    g: seq<CallInfo>, t: seq<Value>, n: nat, cl: Closure)
    requires Counted(calls, f, s, n) && Kept(f, s, g, t, n)
    requires n + 1 < |g| && Slot(t, g[n + 1].func) == Function(cl)
    ensures Counted(calls[cl := Opens(calls, cl) + 1], g, t, n + 1)
  {
    var after := calls[cl := Opens(calls, cl) + 1];
    forall c ensures Opens(after, c) == Holding(c, g, t, n + 1) {
      HoldingKept(c, f, s, g, t, n);
    }
  }

  lemma Stacked(calls: map<Closure, nat>, f: seq<CallInfo>, s: seq<Value>, n: nat, k: nat)
    requires n < |f| && Accounted(calls, f, s, n) && 1 <= k <= n
    ensures f[k - 1].base <= f[k].func < f[k].base <= f[n].base
    ensures Slot(s, f[k].func).Function? && f[k].nresults >= MULTRET
  {
    assert OnTop(f, s, k);
    FuncsBelow(f, s, k, n);
  }

  /** Nothing at or below frame n has changed, so frames and counters still agree. */
  lemma Rebase(calls: map<Closure, nat>, f: seq<CallInfo>, s: seq<Value>,
               g: seq<CallInfo>, t: seq<Value>, n: nat, m: nat)
    requires Accounted(calls, f, s, n)
    requires n < |f| && n < |g| && g[..n + 1] == f[..n + 1]
    requires f[n].base <= m && SameBelow(s, t, m)
    ensures g[n] == f[n] && Kept(f, s, g, t, n) && Accounted(calls, g, t, n)
  {
    KeptAbove(f, s, g, t, n);
    CountedKept(calls, f, s, g, t, n);
    assert g[..n + 1][n] == f[..n + 1][n];
  }

  /** A frame pushed on top, its closure's counter raised. */
  lemma Push(calls: map<Closure, nat>, f: seq<CallInfo>, s: seq<Value>,
             g: seq<CallInfo>, t: seq<Value>, n: nat, cl: Closure)
    requires Accounted(calls, f, s, n)
    requires n < |f| && n + 1 < |g| && g[..n + 1] == f[..n + 1]
    requires f[n].base <= g[n + 1].func < g[n + 1].base && SameBelow(s, t, g[n + 1].func)
    requires Slot(t, g[n + 1].func) == Function(cl) && g[n + 1].nresults >= MULTRET
    ensures Accounted(calls[cl := Opens(calls, cl) + 1], g, t, n + 1)
  {
    Rebase(calls, f, s, g, t, n, g[n + 1].func);
    CountedPush(calls, f, s, g, t, n, cl);
  }

  /** The frames lo + 1 to hi no longer count. */
  ghost predicate TakenOff(calls: map<Closure, nat>, after: map<Closure, nat>,
                           f: seq<CallInfo>, s: seq<Value>, lo: nat, hi: nat)
    requires lo <= hi < |f|
  {
    forall c :: Opens(after, c) == Opens(calls, c) - (Holding(c, f, s, hi) - Holding(c, f, s, lo))
  }

  /** Frame n gives way to frame n + 1 moved into its place. */
  lemma CountedReplace(calls: map<Closure, nat>, f: seq<CallInfo>, s: seq<Value>,
                       g: seq<CallInfo>, t: seq<Value>, n: nat, after: map<Closure, nat>)
    requires Counted(calls, f, s, n + 1) && n >= 1
    requires Kept(f, s, g, t, n - 1) && n < |g|
    requires Slot(t, g[n].func) == Slot(s, f[n + 1].func)
    requires TakenOff(calls, after, f, s, n - 1, n)
    ensures Counted(after, g, t, n)
  {
    forall c ensures Opens(after, c) == Holding(c, g, t, n) {
      HoldingKept(c, f, s, g, t, n - 1);
    }
  }

  /** No room for another frame: the array of frames is used up and may not be doubled. */
  predicate Full(frames: seq<CallInfo>, n: nat) {
    n + 1 == |frames| && 2 * |frames| > MAXCALLS
  }

  lemma SameRefl(s: seq<Value>, m: nat)
    ensures SameBelow(s, s, m)
  {
  }

  lemma SameLess(s: seq<Value>, t: seq<Value>, m: nat, k: nat)
    requires SameBelow(s, t, m) && k <= m
    ensures SameBelow(s, t, k)
  {
  }

  /** The frames below `floor`, and the stack below `at`, where frame `floor` begins. */
  ghost predicate Undisturbed(f: seq<CallInfo>, s: seq<Value>, g: seq<CallInfo>, t: seq<Value>,
                              floor: nat, at: nat) {
    floor <= |f| && floor <= |g| && g[..floor] == f[..floor] && SameBelow(s, t, at)
  }

  lemma UndisturbedStep(f: seq<CallInfo>, s: seq<Value>, g: seq<CallInfo>, t: seq<Value>,
                        h: seq<CallInfo>, u: seq<Value>, floor: nat, at: nat, n: nat, m: nat)
    requires Undisturbed(f, s, g, t, floor, at)
    requires floor <= n <= |g| && n <= |h| && h[..n] == g[..n]
    requires at <= m && SameBelow(t, u, m)
    ensures Undisturbed(f, s, h, u, floor, at)
    ensures forall k :: 0 <= k < n ==> h[k] == g[k]
  {
    forall k | 0 <= k < n ensures h[k] == g[k] {
      assert h[..n][k] == g[..n][k];
    }
  }

  /** The counters read the same for every closure. */
  ghost predicate SameCounts(calls: map<Closure, nat>, after: map<Closure, nat>) {
    forall c :: Opens(after, c) == Opens(calls, c)
  }

  lemma SameCountsAgain(calls: map<Closure, nat>, f: seq<CallInfo>, s: seq<Value>,
                        after: map<Closure, nat>, g: seq<CallInfo>, t: seq<Value>, n: nat, m: nat)
    requires n < |f| && n < |g| && Accounted(calls, f, s, n) && Accounted(after, g, t, n)
    requires Undisturbed(f, s, g, t, n + 1, m) && f[n].base <= m
    ensures SameCounts(calls, after)
  {
    Rebase(calls, f, s, g, t, n, m);
  }

  lemma SameAt(s: seq<Value>, t: seq<Value>, m: nat, i: nat)
    requires SameBelow(s, t, m) && i < m
    ensures Slot(t, i) == Slot(s, i)
  {
  }

  lemma SameThrough(s: seq<Value>, t: seq<Value>, r: seq<Value>, m: nat)
    requires SameBelow(s, t, m) && SameBelow(t, r, m)
    ensures SameBelow(s, r, m)
  {
  }

  /** Frame n + 1 slid down onto frame n. */
  lemma Replaced(calls: map<Closure, nat>, after: map<Closure, nat>, f: seq<CallInfo>, s: seq<Value>,
                 g: seq<CallInfo>, t: seq<Value>, n: nat)
    requires 1 <= n && n + 1 < |f| && Accounted(calls, f, s, n + 1)
    requires |g| == |f| && g[..n] == f[..n] && g[n].func == f[n].func && g[n].nresults == f[n].nresults
    requires g[n].func < g[n].base
    requires SameBelow(s, t, f[n].func) && Slot(t, f[n].func) == Slot(s, f[n + 1].func)
    requires TakenOff(calls, after, f, s, n - 1, n)
    ensures Accounted(after, g, t, n)
  {
    assert OnTop(f, s, n) && OnTop(f, s, n + 1);
    assert g[..n - 1 + 1] == f[..n - 1 + 1];
    KeptAbove(f, s, g, t, n - 1);
    assert g[..n][n - 1] == f[..n][n - 1];
    assert OnTop(g, t, n);
    CountedReplace(calls, f, s, g, t, n, after);
  }

  /** One closure more open, one less. */
  ghost predicate Exchanged(calls: map<Closure, nat>, after: map<Closure, nat>, more: Value, less: Value) {
    forall c :: Opens(after, c) ==
                (Opens(calls, c) + (if Function(c) == more then 1 else 0) - (if Function(c) == less then 1 else 0))
  }

  lemma PushedAndTakenOff(calls: map<Closure, nat>, after: map<Closure, nat>,
                          f: seq<CallInfo>, s: seq<Value>, n: nat, cl: Closure)
    requires 1 <= n < |f| && TakenOff(calls[cl := Opens(calls, cl) + 1], after, f, s, n - 1, n)
    ensures Exchanged(calls, after, Function(cl), Slot(s, f[n].func))
  {
  }

  /** Every counter is large enough for the frames to be taken off. */
  lemma Enough(calls: map<Closure, nat>, f: seq<CallInfo>, s: seq<Value>, n: nat, k: nat)
    requires n < |f| && Accounted(calls, f, s, n) && k <= n
    ensures Framed(f, s, k)
    ensures forall c :: Opens(calls, c) >= Holding(c, f, s, k)
  {
    forall c ensures Opens(calls, c) >= Holding(c, f, s, k) {
      HoldingMonotone(c, f, s, k, n);
    }
  }

  lemma Unwound(calls: map<Closure, nat>, after: map<Closure, nat>,
                f: seq<CallInfo>, s: seq<Value>, lo: nat, hi: nat)
    requires lo <= hi < |f| && Accounted(calls, f, s, hi) && TakenOff(calls, after, f, s, lo, hi)
    ensures Accounted(after, f, s, lo)
  {
  }

  lemma FuncAbove(calls: map<Closure, nat>, f: seq<CallInfo>, s: seq<Value>, n: nat, floor: nat, at: nat)
    requires n < |f| && Accounted(calls, f, s, n) && floor <= n
    requires if floor == 0 then at == 0 else f[floor].func == at
    ensures at <= f[n].func
  {
    if floor >= 1 {
      FuncsBelow(f, s, floor, n);
    }
  }

  lemma StoredAbove(s: seq<Value>, i: nat, v: Value)
    ensures SameBelow(s, Stored(s, i, v), i)
  {
  }

  /** The arguments of a call made at `func`: for a callable object, the object comes first. */
  function Arguments(s: seq<Value>, func: nat, top: nat): seq<Value>
    requires func < top
  {
    var first := if Slot(s, func).Function? then func + 1 else func;
    seq(top - first, i requires 0 <= i < top - first => Slot(s, first + i))
  }

  /** The function that runs, if any. */
  function Callee(v: Value): Value {
    if v.Callable? then Function(v.tm) else v
  }

  /** What a Lua function finds in its registers: its parameters hold the arguments, or nil, the
      other registers nil; the extra arguments of a vararg function lie just below its base. */
  ghost predicate Entered(frame: CallInfo, s: seq<Value>, cl: Closure, args: seq<Value>) {
    && (forall j: nat :: frame.base <= j < frame.base + cl.maxstacksize ==>
                         Slot(s, j) == Parameter(cl, args, j - frame.base))
    && frame.top == frame.base + cl.maxstacksize
    && (if cl.isVararg then
          && frame.base == frame.func + 1 + (if |args| < cl.numparams then cl.numparams else |args|)
          && (forall j: nat :: frame.func + 1 + cl.numparams <= j < frame.func + 1 + |args| ==>
                               Slot(s, j) == args[j - frame.func - 1])
        else
          frame.base == frame.func + 1)
  }

  /** The i-th register of a Lua function when it starts. */
  function Parameter(cl: Closure, args: seq<Value>, i: nat): Value {
    if i < cl.numparams && i < |args| then args[i] else Nil
  }

  /** The same before the registers above the parameters are cleared. */
  ghost predicate Adjusted(cl: Closure, args: seq<Value>, s: seq<Value>, func: nat, base: nat, top: nat) {
    && base <= top <= base + cl.numparams
    && (forall j: nat :: base <= j < top ==> Slot(s, j) == Parameter(cl, args, j - base))
    && (top < base + cl.numparams ==> !cl.isVararg && top == base + |args|)
    && (if cl.isVararg then
          && base == func + 1 + (if |args| < cl.numparams then cl.numparams else |args|)
          && (forall j: nat :: func + 1 + cl.numparams <= j < func + 1 + |args| ==>
                               Slot(s, j) == args[j - func - 1])
        else
          base == func + 1)
  }

  lemma AdjustedPlain(cl: Closure, s: seq<Value>, func: nat, top: nat)
    requires func < top && Slot(s, func) == Function(cl) && !cl.isVararg
    ensures Adjusted(cl, Arguments(s, func, top), s, func, func + 1, if top > func + 1 + cl.numparams then func + 1 + cl.numparams else top)
  {
  }

  lemma AdjustedVarargs(cl: Closure, was: seq<Value>, func: nat, top: nat, s: seq<Value>, base: nat)
    requires func < top && Slot(was, func) == Function(cl) && cl.isVararg
    requires base == func + 1 + if top - func - 1 < cl.numparams then cl.numparams else top - func - 1
    requires forall j: nat :: base <= j < base + cl.numparams ==>
               Slot(s, j) == (if j - base < top - func - 1 then Slot(was, j - base + func + 1) else Nil)
    requires forall j: nat :: func + 1 + cl.numparams <= j < top ==> Slot(s, j) == Slot(was, j)
    ensures Adjusted(cl, Arguments(was, func, top), s, func, base, base + cl.numparams)
  {
    var args := Arguments(was, func, top);
    assert |args| == top - func - 1 && forall i: nat :: i < |args| ==> args[i] == Slot(was, func + 1 + i);
  }

  lemma AdjustedEntered(cl: Closure, args: seq<Value>, s: seq<Value>, top: nat, frame: CallInfo, t: seq<Value>)
    requires Adjusted(cl, args, s, frame.func, frame.base, top)
    requires frame.top == frame.base + cl.maxstacksize
    requires forall j: nat :: Slot(t, j) == if top <= j < frame.top then Nil else Slot(s, j)
    ensures Entered(frame, t, cl, args)
  {
  }

  lemma EnteredMoved(frame: CallInfo, s: seq<Value>, cl: Closure, args: seq<Value>, to: CallInfo, t: seq<Value>)
    requires Entered(frame, s, cl, args)
    requires to.func < frame.func < frame.base && to.func + frame.base == to.base + frame.func
    requires to.func + frame.top == to.top + frame.func
    requires forall j: nat :: to.func <= j < to.top ==> Slot(t, j) == Slot(s, j - to.func + frame.func)
    ensures Entered(to, t, cl, args)
  {
  }

  /** What a call leaves behind: `wanted` results from where the function stood, missing ones nil, or
      all of them when LUA_MULTRET was asked for. */
  ghost predicate Delivered(s: seq<Value>, top: nat, t: seq<Value>, newTop: nat,
                            res: nat, first: nat, wanted: int)
    requires first <= top
  {
    && newTop == res + (if wanted == MULTRET then top - first else wanted)
    && forall j: nat :: res <= j < newTop ==>
         Slot(t, j) == if j - res < top - first then Slot(s, j - res + first) else Nil
  }

  /** What runs between two protected calls, as the program text and the C functions choose it. */
  datatype Op =
    | Call(func: nat, nresults: int)
    | TailCall(func: nat)
    | Return(first: nat)
    | Store(i: nat, v: Value)
    | SetTop(i: nat)
    | Raise(msg: Value)
    | PCall(func: nat, nresults: int, body: Run)
  datatype Run = Done | Then(op: Op, rest: Run)

  // ---- What the operations do to a thread, from one moment to another

  datatype Moment = Moment(frames: seq<CallInfo>, ci: nat, stack: seq<Value>, top: nat, calls: map<Closure, nat>)

  /** What a C function finds: its arguments from its base up to the top, and LUA_MINSTACK slots above them. */
  ghost predicate EnteredC(frame: CallInfo, s: seq<Value>, top: nat, args: seq<Value>) {
    && frame.base == frame.func + 1 && top == frame.base + |args| && frame.top == top + 100
    && forall j: nat :: j < |args| ==> Slot(s, frame.base + j) == args[j]
  }

  /** Why growCI fails. */
  function Overflow(frames: seq<CallInfo>): Failure {
    if |frames| > MAXCALLS then ErrorInErrorHandling else StackOverflow
  }

  /** How long the array of frames is after a frame has been asked for: growCI doubles it, even if that is too much. */
  function Grown(frames: seq<CallInfo>, n: nat): nat {
    if n + 1 == |frames| && |frames| <= MAXCALLS then 2 * |frames| else |frames|
  }

  /** How long it is after an error: what an overflow made too long is cut back once there is room again. */
  function CutBack(frames: seq<CallInfo>, n: nat): nat {
    if |frames| > MAXCALLS && n + 1 < MAXCALLS then MAXCALLS else |frames|
  }

  /** luaD_precall, from m0 to m1. */
  ghost predicate PreCalled(m0: Moment, func: nat, nresults: int, r: Called, m1: Moment) {
    var v := Callee(Slot(m0.stack, func));
    && func < m0.top && m0.ci < |m0.frames| && m0.ci <= m1.ci < |m1.frames|
    && m1.frames[..m0.ci + 1] == m0.frames[..m0.ci + 1] && SameBelow(m0.stack, m1.stack, func)
    && (r.Error? <==> !v.Function? || Full(m0.frames, m0.ci))
    && (v.Function? ==> |m1.frames| == Grown(m0.frames, m0.ci))
    && (if !v.Function? then r == Error(AttemptToCall) && m1 == m0
        else if r.Error? then r == Error(Overflow(m0.frames)) && m1.ci == m0.ci && m1.calls == m0.calls && m1.top > func
        else
          var frame := m1.frames[m1.ci];
          var args := Arguments(m0.stack, func, m0.top);
          && m1.ci == m0.ci + 1 && frame.func == func && frame.nresults == nresults && Slot(m1.stack, func) == v
          && m1.calls == m0.calls[v.cl := Opens(m0.calls, v.cl) + 1]
          && (if v.cl.isC then r == PCRC && EnteredC(frame, m1.stack, m1.top, args)
              else r == PCRLUA && m1.top == frame.top && Entered(frame, m1.stack, v.cl, args)))
  }

  /** OP_TAILCALL. */
  ghost predicate TailCalled(m0: Moment, func: nat, r: Called, m1: Moment) {
    if r != PCRLUA then PreCalled(m0, func, MULTRET, r, m1)
    else
      var v := Callee(Slot(m0.stack, func));
      && func < m0.top && m0.ci < |m0.frames| && m1.ci == m0.ci < |m1.frames|
      && v.Function? && !v.cl.isC && !Full(m0.frames, m0.ci) && |m1.frames| == Grown(m0.frames, m0.ci)
      && m1.frames[..m0.ci] == m0.frames[..m0.ci]
      && (var frame, was := m1.frames[m0.ci], m0.frames[m0.ci];
          && frame.func == was.func && frame.nresults == was.nresults && frame.tailcalls == was.tailcalls + 1
          && SameBelow(m0.stack, m1.stack, was.func) && Slot(m1.stack, was.func) == v && m1.top == frame.top
          && Entered(frame, m1.stack, v.cl, Arguments(m0.stack, func, m0.top))
          && Exchanged(m0.calls, m1.calls, v, Slot(m0.stack, was.func)))
  }

  /** luaD_poscall. */
  ghost predicate Returned(m0: Moment, first: nat, m1: Moment) {
    && 1 <= m0.ci < |m0.frames| && first <= m0.top && m1.frames == m0.frames && m1.ci == m0.ci - 1
    && (var frame := m0.frames[m0.ci];
        && SameBelow(m0.stack, m1.stack, frame.func)
        && Delivered(m0.stack, m0.top, m1.stack, m1.top, frame.func, first, frame.nresults))
    && TakenOff(m0.calls, m1.calls, m0.frames, m0.stack, m1.ci, m0.ci)
  }

  /** An error is raised: its message goes on top of the stack. */
  ghost predicate Threw(m0: Moment, msg: Value, m1: Moment) {
    m1 == m0.(stack := Stored(m0.stack, m0.top, msg), top := m0.top + 1)
  }

  /** luaD_pcall after an error: the frames above oldCi are gone, and the message is where the function stood. */
  ghost predicate Recovered(m0: Moment, oldCi: nat, oldTop: nat, m1: Moment) {
    && m1.ci == oldCi <= m0.ci < |m0.frames| && oldCi < |m1.frames| == CutBack(m0.frames, oldCi) && m1.frames[..oldCi + 1] == m0.frames[..oldCi + 1]
    && SameBelow(m0.stack, m1.stack, oldTop)
    && m0.top >= 1 && m1.top == oldTop + 1 && Slot(m1.stack, oldTop) == Slot(m0.stack, m0.top - 1)
    && TakenOff(m0.calls, m1.calls, m0.frames, m0.stack, oldCi, m0.ci)
  }

  /** The frames above oldCi return without results. */
  ghost predicate Finished(m0: Moment, oldCi: nat, m1: Moment)
    decreases m0.ci
  {
    if m0.ci <= oldCi then m1 == m0
    else exists m: Moment :: m.ci < m0.ci && Returned(m0, m0.top, m) && Finished(m, oldCi, m1)
  }

  /** How a run or a protected call ends. */
  datatype Outcome = Fine | Thrown(msg: Value)

  /** Is this step possible in the running frame?  A function reaches the slots from its own base up; only a Lua
      function makes tail calls. */
  predicate Possible(m: Moment, op: Op) {
    m.ci < |m.frames| &&
    var frame := m.frames[m.ci];
    match op
    case Call(func, nresults) => frame.base <= func < m.top && nresults >= MULTRET
    case PCall(func, nresults, _) => frame.base <= func < m.top && nresults >= MULTRET
    case TailCall(func) =>
      m.ci >= 1 && frame.base <= func < m.top && var v := Slot(m.stack, frame.func); v.Function? && !v.cl.isC
    case Return(first) => m.ci >= 1 && frame.base <= first <= m.top
    case Store(i, _) => frame.base <= i
    case SetTop(i) => frame.base <= i
    case Raise(_) => true
  }

  /** A call that fails raises its message. */
  ghost predicate CalledOrThrew(m: Moment, r: Called, m1: Moment, out: Outcome) {
    if r.Error? then out == Thrown(Message(r.e)) && Threw(m, Message(r.e), m1) else out == Fine && m1 == m
  }

  /** One operation, from m0 to m1.  Only a Raise or a call that fails throws; a protected call never does. */
  ghost predicate Did(op: Op, m0: Moment, m1: Moment, out: Outcome)
    decreases op, 1
  {
    match op
    case Call(func, nresults) => exists r, m :: PreCalled(m0, func, nresults, r, m) && CalledOrThrew(m, r, m1, out)
    case TailCall(func) => exists r, m :: TailCalled(m0, func, r, m) && CalledOrThrew(m, r, m1, out)
    case Return(first) => Returned(m0, first, m1) && out == Fine
    case Store(i, v) => m1 == m0.(stack := Stored(m0.stack, i, v)) && out == Fine
    case SetTop(i) => m1 == m0.(top := i) && out == Fine
    case Raise(msg) => Threw(m0, msg, m1) && out == Thrown(msg)
    case PCall(func, nresults, body) => out == Fine && exists status :: Protects(func, nresults, body, m0, m1, status)
  }

  /** A run in the frames from floor up: operations that are not possible are passed over; it ends with the first one
      that throws, or that returns from frame floor, or after the last. */
  ghost predicate Ran(p: Run, floor: nat, m0: Moment, m1: Moment, out: Outcome)
    decreases p, 0
  {
    match p
    case Done => m1 == m0 && out == Fine
    case Then(op, rest) =>
      if !Possible(m0, op) then Ran(rest, floor, m0, m1, out)
      else exists m, o :: Did(op, m0, m, o) && GoesOn(rest, floor, m, m1, o, out)
  }

  ghost predicate GoesOn(rest: Run, floor: nat, m: Moment, m1: Moment, o: Outcome, out: Outcome)
    decreases rest, 2
  {
    if o.Thrown? || m.ci < floor then m1 == m && out == o else Ran(rest, floor, m, m1, out)
  }

  /** luaD_pcall: its status is the way the call and its body ended. */
  ghost predicate Protects(func: nat, nresults: int, body: Run, m0: Moment, m1: Moment, status: Outcome)
    decreases body, 2
  {
    && m0.ci < |m0.frames| && m1.ci == m0.ci < |m1.frames| && m1.frames[..m0.ci + 1] == m0.frames[..m0.ci + 1]
    && SameBelow(m0.stack, m1.stack, func) && SameCounts(m0.calls, m1.calls)
    && exists r, m :: PreCalled(m0, func, nresults, r, m) && ProtectedBody(func, body, m0, r, m, m1, status)
  }

  ghost predicate ProtectedBody(func: nat, body: Run, m0: Moment, r: Called, m: Moment, m1: Moment, status: Outcome)
    decreases body, 1
  {
    exists e ::
      && (if r.Error? then status == Thrown(Message(r.e)) && Threw(m, Message(r.e), e) else Ran(body, m0.ci + 1, m, e, status))
      && if status.Fine? then Finished(e, m0.ci, m1) else Recovered(e, m0.ci, func, m1)
  }

  lemma RanDone(floor: nat, m: Moment)
    ensures Ran(Done, floor, m, m, Fine)
  {
  }

  lemma RanPast(op: Op, rest: Run, floor: nat, m0: Moment, m1: Moment, out: Outcome)
    requires !Possible(m0, op) && Ran(rest, floor, m0, m1, out)
    ensures Ran(Then(op, rest), floor, m0, m1, out)
  {
    hide Possible;
  }

  lemma RanStep(op: Op, rest: Run, floor: nat, m0: Moment, m: Moment, o: Outcome, m1: Moment, out: Outcome)
    requires Possible(m0, op) && Did(op, m0, m, o)
    requires if o.Thrown? || m.ci < floor then m1 == m && out == o else Ran(rest, floor, m, m1, out)
    ensures Ran(Then(op, rest), floor, m0, m1, out)
  {
    hide Possible, Did;
    assert GoesOn(rest, floor, m, m1, o, out);
  }

  lemma DidCall(func: nat, nresults: int, m0: Moment, r: Called, m: Moment, m1: Moment, out: Outcome)
    requires PreCalled(m0, func, nresults, r, m) && CalledOrThrew(m, r, m1, out)
    ensures Did(Call(func, nresults), m0, m1, out)
  {
    hide PreCalled, CalledOrThrew;
  }

  lemma DidTailCall(func: nat, m0: Moment, r: Called, m: Moment, m1: Moment, out: Outcome)
    requires TailCalled(m0, func, r, m) && CalledOrThrew(m, r, m1, out)
    ensures Did(TailCall(func), m0, m1, out)
  {
    hide TailCalled, CalledOrThrew;
  }

  lemma DidPCall(func: nat, nresults: int, body: Run, m0: Moment, m1: Moment, status: Outcome)
    requires Protects(func, nresults, body, m0, m1, status)
    ensures Did(PCall(func, nresults, body), m0, m1, Fine)
  {
    hide Protects;
  }

  lemma ProtectsKeeps(func: nat, nresults: int, body: Run, m0: Moment, m1: Moment, status: Outcome)
    requires Protects(func, nresults, body, m0, m1, status)
    ensures m0.ci < |m0.frames| && m1.ci == m0.ci < |m1.frames| && m1.frames[..m0.ci + 1] == m0.frames[..m0.ci + 1]
    ensures SameBelow(m0.stack, m1.stack, func)
  {
    hide SameBelow, ProtectedBody, PreCalled, SameCounts;
  }

  lemma DidOther(op: Op, m0: Moment, m1: Moment, out: Outcome)
    requires match op
             case Return(first) => Returned(m0, first, m1) && out == Fine
             case Store(i, v) => m1 == m0.(stack := Stored(m0.stack, i, v)) && out == Fine
             case SetTop(i) => m1 == m0.(top := i) && out == Fine
             case Raise(msg) => Threw(m0, msg, m1) && out == Thrown(msg)
             case _ => false
    ensures Did(op, m0, m1, out)
  {
    hide Returned, Threw;
  }

  /** How the call, or else its body, ended. */
  ghost predicate BodyOutcome(body: Run, ci: nat, r: Called, m: Moment, e: Moment, status: Outcome) {
    if r.Error? then status == Thrown(Message(r.e)) && Threw(m, Message(r.e), e) else Ran(body, ci + 1, m, e, status)
  }

  lemma Begins(f: seq<CallInfo>, g: seq<CallInfo>, n: nat)
    requires n < |f| && n < |g| && g[..n + 1] == f[..n + 1]
    ensures g[n] == f[n]
  {
    assert g[..n + 1][n] == f[..n + 1][n];
  }

  lemma BodyProtected(func: nat, body: Run, m0: Moment, r: Called, m: Moment, e: Moment, m1: Moment, status: Outcome)
    requires BodyOutcome(body, m0.ci, r, m, e, status)
    requires if status.Fine? then Finished(e, m0.ci, m1) else Recovered(e, m0.ci, func, m1)
    ensures ProtectedBody(func, body, m0, r, m, m1, status)
  {
    hide Ran, Finished, Recovered, Threw;
  }

  ghost predicate OneReturned(oldCi: nat, m: Moment, next: Moment) {
    oldCi < m.ci && Returned(m, m.top, next)
  }

  lemma {:induction false} AllReturned(oldCi: nat, past: seq<Moment>)
    requires past != [] && past[|past| - 1].ci <= oldCi
    requires forall k :: 0 <= k < |past| - 1 ==> OneReturned(oldCi, past[k], past[k + 1])
    ensures Finished(past[0], oldCi, past[|past| - 1])
  {
    if |past| > 1 {
      assert OneReturned(oldCi, past[0], past[1]);
      AllReturned(oldCi, past[1..]);
    }
  }

  lemma TailKeeps(m0: Moment, func: nat, r: Called, m1: Moment)
    requires TailCalled(m0, func, r, m1) && m0.frames[m0.ci].func <= func
    ensures m1.frames[..m0.ci] == m0.frames[..m0.ci] && m1.frames[m0.ci].func == m0.frames[m0.ci].func && m1.ci >= m0.ci
    ensures SameBelow(m0.stack, m1.stack, m0.frames[m0.ci].func) && (r.Error? ==> m1.top > func)
  {
    hide Entered, EnteredC, Arguments, Exchanged;
  }

  // ---- What a run and a protected call mean

  /** A run that begins with a Raise throws its message, and a call that fails its own, whatever comes behind. */
  lemma RaiseThrows(msg: Value, func: nat, nresults: int, rest: Run, floor: nat, m0: Moment, m1: Moment, out: Outcome)
    requires m0.ci < |m0.frames|
    ensures Ran(Then(Raise(msg), rest), floor, m0, m1, out) ==> out == Thrown(msg)
    ensures m0.frames[m0.ci].base <= func < m0.top && nresults >= MULTRET && !Callee(Slot(m0.stack, func)).Function? ==>
              (Ran(Then(Call(func, nresults), rest), floor, m0, m1, out) ==> out == Thrown(Message(AttemptToCall)))
  {
    hide Ran, Did, Full;
    if Ran(Then(Raise(msg), rest), floor, m0, m1, out) {
      var m, o := RanFirst(Raise(msg), rest, floor, m0, m1, out);
      assert Did(Raise(msg), m0, m, o) ==> o == Thrown(msg) by { Raised(msg, m0, m, o); }
    }
    if m0.frames[m0.ci].base <= func < m0.top && nresults >= MULTRET && !Callee(Slot(m0.stack, func)).Function?
       && Ran(Then(Call(func, nresults), rest), floor, m0, m1, out) {
      var m, o := RanFirst(Call(func, nresults), rest, floor, m0, m1, out);
      NotCalled(func, nresults, m0, m, o);
    }
  }

  lemma RanFirst(op: Op, rest: Run, floor: nat, m0: Moment, m1: Moment, out: Outcome) returns (m: Moment, o: Outcome)
    requires Possible(m0, op) && Ran(Then(op, rest), floor, m0, m1, out)
    ensures Did(op, m0, m, o) && if o.Thrown? || m.ci < floor then m1 == m && out == o else Ran(rest, floor, m, m1, out)
  {
    hide Did, Possible;
    m, o :| Did(op, m0, m, o) && GoesOn(rest, floor, m, m1, o, out);
  }

  /** In a frame of a Lua function every operation on its own slots is done; a C function makes no tail calls. */
  lemma DoneWhen(op: Op, rest: Run, floor: nat, m0: Moment, m1: Moment, out: Outcome)
    requires 1 <= m0.ci < |m0.frames| && Slot(m0.stack, m0.frames[m0.ci].func).Function?
    requires Ran(Then(op, rest), floor, m0, m1, out)
    requires var base := m0.frames[m0.ci].base;
             match op
             case Call(func, nresults) => base <= func < m0.top && nresults >= -1
             case PCall(func, nresults, _) => base <= func < m0.top && nresults >= -1
             case TailCall(func) => base <= func < m0.top
             case Return(first) => base <= first <= m0.top
             case Store(i, _) => base <= i
             case SetTop(i) => base <= i
             case Raise(_) => true
    ensures op.TailCall? && Slot(m0.stack, m0.frames[m0.ci].func).cl.isC ==> Ran(rest, floor, m0, m1, out)
    ensures !(op.TailCall? && Slot(m0.stack, m0.frames[m0.ci].func).cl.isC) ==>
              exists m, o :: Did(op, m0, m, o) && GoesOn(rest, floor, m, m1, o, out)
  {
    hide Did, GoesOn;
  }

  lemma Raised(msg: Value, m0: Moment, m1: Moment, out: Outcome)
    ensures Did(Raise(msg), m0, m1, out) ==> out == Thrown(msg)
  {
  }

  lemma NotCalled(func: nat, nresults: int, m0: Moment, m1: Moment, out: Outcome)
    requires Did(Call(func, nresults), m0, m1, out) && !Callee(Slot(m0.stack, func)).Function?
    ensures out == Thrown(Message(AttemptToCall))
  {
    hide Full, EnteredC, Entered, Arguments;
    var r, m :| PreCalled(m0, func, nresults, r, m) && CalledOrThrew(m, r, m1, out);
  }

  /** The operations of a run, those of the bodies of its protected calls left out. */
  function Ops(p: Run): seq<Op> {
    match p case Done => [] case Then(op, rest) => [op] + Ops(rest)
  }

  /** What escapes from a run is raised in it outside every protected call, or the message of a call that fails there; it
      is on top of the stack. */
  lemma {:induction false} ThrownFrom(p: Run, floor: nat, m0: Moment, m1: Moment, msg: Value)
    requires Ran(p, floor, m0, m1, Thrown(msg))
    ensures Raise(msg) in Ops(p) || (msg.Message? && exists op :: op in Ops(p) && (op.Call? || op.TailCall?))
    ensures m1.top >= 1 && Slot(m1.stack, m1.top - 1) == msg
    decreases p
  {
    hide Did, Ran, Possible;
    RanNever(floor, m0, m1, Thrown(msg));
    var op, rest := p.op, p.rest;
    if Possible(m0, op) {
      var m, o := RanFirst(op, rest, floor, m0, m1, Thrown(msg));
      if o.Thrown? {
        DidThrow(op, m0, m1, msg);
        assert op in Ops(p);
      } else {
        ThrownFrom(rest, floor, m, m1, msg);
      }
    } else {
      RanOn(op, rest, floor, m0, m1, Thrown(msg));
      ThrownFrom(rest, floor, m0, m1, msg);
    }
  }

  lemma RanNever(floor: nat, m0: Moment, m1: Moment, out: Outcome)
    ensures Ran(Done, floor, m0, m1, out) <==> out == Fine && m1 == m0
  {
  }

  lemma RanOn(op: Op, rest: Run, floor: nat, m0: Moment, m1: Moment, out: Outcome)
    requires !Possible(m0, op) && Ran(Then(op, rest), floor, m0, m1, out)
    ensures Ran(rest, floor, m0, m1, out)
  {
    hide Possible;
  }

  lemma DidThrow(op: Op, m0: Moment, m1: Moment, msg: Value)
    requires Did(op, m0, m1, Thrown(msg))
    ensures op == Raise(msg) || (msg.Message? && (op.Call? || op.TailCall?))
    ensures m1.top >= 1 && Slot(m1.stack, m1.top - 1) == msg
  {
    hide PreCalled, TailCalled, Protects, Returned;
  }

  /** Frame `floor` is the one a call made, or a tail call took over. */
  ghost predicate FrameOf(m: Moment, floor: nat, func: nat, nresults: int) {
    1 <= floor <= m.ci < |m.frames| && m.frames[floor].func == func && m.frames[floor].nresults == nresults
  }

  /** Frame `floor`, the only one left of a call, returns the values from `first` on. */
  ghost predicate LastReturn(floor: nat, func: nat, nresults: int, m: Moment, first: nat, m1: Moment) {
    FrameOf(m, floor, func, nresults) && m.ci == floor && Returned(m, first, m1)
  }

  ghost predicate HasReturned(floor: nat, func: nat, nresults: int, m1: Moment) {
    exists m, first :: LastReturn(floor, func, nresults, m, first, m1)
  }

  /** A protected call ends with an error exactly if the call or its body did, and then the message alone stands where the
      function stood; otherwise its results stand there, as many as were asked for. */
  lemma ProtectedMeans(func: nat, nresults: int, body: Run, m0: Moment, m1: Moment, status: Outcome)
    requires Protects(func, nresults, body, m0, m1, status)
    ensures m1.ci == m0.ci
    ensures status.Thrown? ==> m1.top == func + 1 && Slot(m1.stack, func) == status.msg
    ensures status.Fine? ==> HasReturned(m0.ci + 1, func, nresults, m1)
    ensures !Callee(Slot(m0.stack, func)).Function? ==> status == Thrown(Message(AttemptToCall))
    ensures Callee(Slot(m0.stack, func)).Function? && Full(m0.frames, m0.ci) ==> status == Thrown(Message(Overflow(m0.frames)))
    ensures Callee(Slot(m0.stack, func)).Function? && !Full(m0.frames, m0.ci) ==> exists m, e :: BodyRan(func, nresults, body, m0, m, e, status)
  {
    hide PreCalled, ProtectedBody, Finished, Recovered, Ran, HasReturned, Full;
    var r, m :| PreCalled(m0, func, nresults, r, m) && ProtectedBody(func, body, m0, r, m, m1, status);
    var e := BodyOf(func, body, m0, r, m, m1, status);
    Refused(m0, func, nresults, r, m);
    if status.Thrown? {
      if r.Error? {
        ThrowOnTop(m, Message(r.e), e);
      } else {
        ThrownFrom(body, m0.ci + 1, m, e, status.msg);
      }
      MessageMoved(e, m0.ci, func, m1);
    } else {
      RanEnds(body, m0.ci + 1, func, nresults, m, e, Fine);
      if FrameOf(e, m0.ci + 1, func, nresults) {
        FinishedEnds(e, m0.ci + 1, func, nresults, m1);
      } else {
        NothingToFinish(e, m0.ci, func, nresults, m1);
      }
    }
    assert !r.Error? ==> BodyRan(func, nresults, body, m0, m, e, status);
  }

  /** The body runs once the call is made, and decides how the protected call ends. */
  ghost predicate BodyRan(func: nat, nresults: int, body: Run, m0: Moment, m: Moment, e: Moment, status: Outcome) {
    (PreCalled(m0, func, nresults, PCRLUA, m) || PreCalled(m0, func, nresults, PCRC, m)) && Ran(body, m0.ci + 1, m, e, status)
  }

  lemma BodyOf(func: nat, body: Run, m0: Moment, r: Called, m: Moment, m1: Moment, status: Outcome) returns (e: Moment)
    requires ProtectedBody(func, body, m0, r, m, m1, status)
    ensures if r.Error? then status == Thrown(Message(r.e)) && Threw(m, Message(r.e), e) else Ran(body, m0.ci + 1, m, e, status)
    ensures if status.Fine? then Finished(e, m0.ci, m1) else Recovered(e, m0.ci, func, m1)
  {
    hide Ran, Threw, Finished, Recovered;
    e :| && (if r.Error? then status == Thrown(Message(r.e)) && Threw(m, Message(r.e), e) else Ran(body, m0.ci + 1, m, e, status))
         && if status.Fine? then Finished(e, m0.ci, m1) else Recovered(e, m0.ci, func, m1);
  }

  lemma Refused(m0: Moment, func: nat, nresults: int, r: Called, m: Moment)
    requires PreCalled(m0, func, nresults, r, m)
    ensures if !Callee(Slot(m0.stack, func)).Function? then r == Error(AttemptToCall)
            else if Full(m0.frames, m0.ci) then r == Error(Overflow(m0.frames))
            else !r.Error? && FrameOf(m, m0.ci + 1, func, nresults)
  {
    hide Full, Entered, EnteredC, Arguments, Overflow;
  }

  lemma ThrowOnTop(m: Moment, msg: Value, e: Moment)
    requires Threw(m, msg, e)
    ensures e.top >= 1 && Slot(e.stack, e.top - 1) == msg
  {
  }

  lemma MessageMoved(e: Moment, oldCi: nat, func: nat, m1: Moment)
    requires Recovered(e, oldCi, func, m1)
    ensures e.top >= 1 && m1.top == func + 1 && Slot(m1.stack, func) == Slot(e.stack, e.top - 1) && m1.ci == oldCi
  {
    hide TakenOff, SameBelow;
  }

  lemma NothingToFinish(e: Moment, oldCi: nat, func: nat, nresults: int, m1: Moment)
    requires Finished(e, oldCi, m1) && HasReturned(oldCi + 1, func, nresults, e)
    ensures m1 == e && m1.ci == oldCi
  {
    hide TakenOff, SameBelow, Delivered;
  }

  lemma {:induction false} FinishedEnds(e: Moment, floor: nat, func: nat, nresults: int, m1: Moment)
    requires FrameOf(e, floor, func, nresults) && Finished(e, floor - 1, m1)
    ensures HasReturned(floor, func, nresults, m1) && m1.ci == floor - 1
    decreases e.ci
  {
    hide TakenOff, SameBelow, Delivered;
    var m: Moment :| m.ci < e.ci && Returned(e, e.top, m) && Finished(m, floor - 1, m1);
    if e.ci == floor {
      assert LastReturn(floor, func, nresults, e, e.top, m1);
    } else {
      FinishedEnds(m, floor, func, nresults, m1);
    }
  }

  lemma {:induction false} RanEnds(p: Run, floor: nat, func: nat, nresults: int, m0: Moment, m1: Moment, out: Outcome)
    requires Ran(p, floor, m0, m1, out) && FrameOf(m0, floor, func, nresults)
    ensures FrameOf(m1, floor, func, nresults) || (out.Fine? && HasReturned(floor, func, nresults, m1))
    decreases p
  {
    hide Did, Ran, Possible, FrameOf, HasReturned;
    if p.Done? {
      RanNever(floor, m0, m1, out);
    } else if Possible(m0, p.op) {
      var m, o := RanFirst(p.op, p.rest, floor, m0, m1, out);
      DidKeepsFrame(p.op, floor, func, nresults, m0, m, o);
      if !o.Thrown? && m.ci >= floor {
        RanEnds(p.rest, floor, func, nresults, m, m1, out);
      }
    } else {
      RanOn(p.op, p.rest, floor, m0, m1, out);
      RanEnds(p.rest, floor, func, nresults, m0, m1, out);
    }
  }

  /** An operation leaves frame `floor` with its function slot and its number of results, unless it returns from it. */
  lemma DidKeepsFrame(op: Op, floor: nat, func: nat, nresults: int, m0: Moment, m1: Moment, out: Outcome)
    requires Did(op, m0, m1, out) && FrameOf(m0, floor, func, nresults)
    ensures FrameOf(m1, floor, func, nresults) || (out.Fine? && m1.ci < floor && HasReturned(floor, func, nresults, m1))
  {
    hide PreCalled, TailCalled, Protects, Returned;
    match op {
      case Call(f, n) =>
        var r, m :| PreCalled(m0, f, n, r, m) && CalledOrThrew(m, r, m1, out);
        CallKeepsFrame(f, n, floor, func, nresults, m0, r, m);
      case TailCall(f) =>
        var r, m :| TailCalled(m0, f, r, m) && CalledOrThrew(m, r, m1, out);
        TailCallKeepsFrame(f, floor, func, nresults, m0, r, m);
      case PCall(f, n, body) =>
        var status :| Protects(f, n, body, m0, m1, status);
        ProtectsKeeps(f, n, body, m0, m1, status);
        assert m1.frames[..m0.ci + 1][floor] == m0.frames[..m0.ci + 1][floor];
      case Return(first) =>
        ReturnKeepsFrame(first, floor, func, nresults, m0, m1);
      case _ =>
    }
  }

  lemma CallKeepsFrame(f: nat, n: int, floor: nat, func: nat, nresults: int, m0: Moment, r: Called, m1: Moment)
    requires PreCalled(m0, f, n, r, m1) && FrameOf(m0, floor, func, nresults)
    ensures FrameOf(m1, floor, func, nresults)
  {
    hide Entered, EnteredC, Arguments, SameBelow, Full;
    assert m1.frames[..m0.ci + 1][floor] == m0.frames[..m0.ci + 1][floor];
  }

  lemma TailCallKeepsFrame(f: nat, floor: nat, func: nat, nresults: int, m0: Moment, r: Called, m1: Moment)
    requires TailCalled(m0, f, r, m1) && FrameOf(m0, floor, func, nresults)
    ensures FrameOf(m1, floor, func, nresults)
  {
    hide Entered, Arguments, SameBelow, Full, PreCalled, Exchanged;
    if r != PCRLUA {
      CallKeepsFrame(f, MULTRET, floor, func, nresults, m0, r, m1);
    } else if floor < m0.ci {
      assert m1.frames[..m0.ci][floor] == m0.frames[..m0.ci][floor];
    }
  }

  lemma ReturnKeepsFrame(first: nat, floor: nat, func: nat, nresults: int, m0: Moment, m1: Moment)
    requires Returned(m0, first, m1) && FrameOf(m0, floor, func, nresults)
    ensures FrameOf(m1, floor, func, nresults) || (m1.ci < floor && HasReturned(floor, func, nresults, m1))
  {
    hide TakenOff, SameBelow, Delivered;
    if m0.ci == floor {
      assert LastReturn(floor, func, nresults, m0, first, m1);
    }
  }

  class ThreadState {
    var baseCi: seq<CallInfo>         // the array base_ci; its length is size_ci
    var ci: nat                       // L->ci as an index
    var stack: seq<Value>
    var top: nat
    var nopencalls: map<Closure, nat> // the counters of all closures

    ghost predicate Valid()
      reads this
    {
      ci < |baseCi| && baseCi[ci].base <= top && Accounted(nopencalls, baseCi, stack, ci)
    }

    function Here(): Moment
      reads this
    {
      Moment(baseCi, ci, stack, top, nopencalls)
    }

    constructor ()
      ensures Valid() && ci == 0 && nopencalls == map[]
    {
      baseCi := seq(8, _ => CallInfo(0, 1, 1, 0, 0));
      ci, stack, top, nopencalls := 0, [Nil], 1, map[];
    }

    method ReallocCI(newsize: nat)
      requires newsize > ci && ci < |baseCi|
      modifies `baseCi
      ensures |baseCi| == newsize && baseCi[..ci + 1] == old(baseCi[..ci + 1])
    {
      baseCi := if newsize <= |baseCi| then baseCi[..newsize]
                else baseCi + seq(newsize - |baseCi|, _ => CallInfo(0, 0, 0, 0, 0));
    }

    /** inc_ci with growCI; it can only fail before L->ci moves. */
    method IncCi() returns (ok: bool, e: Failure)
      requires ci < |baseCi|
      modifies `baseCi, `ci
      ensures ci == old(ci) + (if ok then 1 else 0) && ci < |baseCi|
      ensures baseCi[..old(ci) + 1] == old(baseCi[..ci + 1])
      ensures ok == !Full(old(baseCi), old(ci))
      ensures !ok ==> e == Overflow(old(baseCi))
      ensures |baseCi| == Grown(old(baseCi), old(ci))
    {
      e := StackOverflow;
      if ci + 1 == |baseCi| {
        if |baseCi| > MAXCALLS {
          return false, ErrorInErrorHandling;
        }
        ReallocCI(2 * |baseCi|);
        if |baseCi| > MAXCALLS {
          return false, e;
        }
      }
      ci := ci + 1;
      ok := true;
    }

    method FillNil(from: nat, to: nat)
      modifies `stack
      ensures forall j: nat :: Slot(stack, j) == if from <= j < to then Nil else Slot(old(stack), j)
    {
      var st := from;
      while st < to
        invariant from <= st && (st <= to || st == from)
        invariant forall j: nat :: Slot(stack, j) == if from <= j < st then Nil else Slot(old(stack), j)
      {
        stack := Stored(stack, st, Nil);
        st := st + 1;
      }
    }

    /** tryfuncTM: opens a hole at `func` and puts the `__call` metamethod there. */
    method TryFuncTM(func: nat) returns (ok: bool)
      requires func < top
      modifies `stack, `top
      ensures ok == Slot(old(stack), func).Callable?
      ensures !ok ==> stack == old(stack) && top == old(top)
      ensures ok ==> top == old(top) + 1 && Slot(stack, func) == Callee(Slot(old(stack), func))
      ensures ok ==> Arguments(stack, func, top) == Arguments(old(stack), func, old(top))
      ensures SameBelow(old(stack), stack, func)
    {
      var tm := Slot(stack, func);
      if !tm.Callable? {
        return false;
      }
      ghost var args := Arguments(stack, func, top);
      var p := top;
      while p > func
        invariant func <= p <= top == old(top)
        invariant SameBelow(old(stack), stack, p + 1)
        invariant forall i: nat :: p < i <= top ==> Slot(stack, i) == args[i - func - 1]
      {
        assert Slot(stack, p - 1) == args[p - 1 - func];
        stack := Stored(stack, p, Slot(stack, p - 1));
        p := p - 1;
      }
      top := top + 1;
      stack := Stored(stack, func, Function(tm.tm));
      ok := true;
    }

    /** adjust_varargs: pads the fixed parameters with nil and moves them above the extra arguments. */
    method AdjustVarargs(cl: Closure, func: nat) returns (base: nat)
      requires func < top
      modifies `stack, `top
      ensures var actual := old(top) - func - 1;
              var most := if actual < cl.numparams then cl.numparams else actual;
              && base == func + 1 + most && top == base + cl.numparams
              && (forall j: nat :: base <= j < base + cl.numparams ==>
                 Slot(stack, j) == (if j - base < actual then Slot(old(stack), j - base + func + 1) else Nil))
              && (forall j: nat :: func + 1 + cl.numparams <= j < func + 1 + actual ==>
                                   Slot(stack, j) == Slot(old(stack), j))
      ensures SameBelow(old(stack), stack, func + 1)
    {
      var actual := top - func - 1;
      ghost var given := actual;
      while actual < cl.numparams
        invariant given <= actual && (actual <= cl.numparams || actual == given)
        invariant top == func + 1 + actual
        invariant forall j: nat :: Slot(stack, j) == (if func + 1 + given <= j < top then Nil
                                                      else Slot(old(stack), j))
        decreases cl.numparams - actual
      {
        stack := Stored(stack, top, Nil);
        top := top + 1;
        actual := actual + 1;
      }
      var fixed := top - actual;
      base := top;
      var i := 0;
      ghost var padded := stack;
      while i < cl.numparams
        invariant i <= cl.numparams && top == base + i
        invariant forall j: nat :: base <= j < top ==> Slot(stack, j) == Slot(padded, j - base + fixed)
        invariant forall j: nat :: fixed + i <= j < base ==> Slot(stack, j) == Slot(padded, j)
        invariant SameBelow(old(stack), stack, func + 1)
      {
        stack := Stored(stack, top, Slot(stack, fixed + i));
        top := top + 1;
        stack := Stored(stack, fixed + i, Nil);
        i := i + 1;
      }
    }

    /** The arguments of a Lua function brought into place: the surplus dropped, or, for a vararg
        function, moved below the base. */
    method AdjustArgs(cl: Closure, func: nat, ghost args: seq<Value>) returns (base: nat)
      requires func < top && Slot(stack, func) == Function(cl) && !cl.isC
      requires args == Arguments(stack, func, top)
      modifies `stack, `top
      ensures SameBelow(old(stack), stack, func + 1) && func < base <= top
      ensures Adjusted(cl, args, stack, func, base, top)
    {
      hide Adjusted, Arguments;
      ghost var was := stack;
      SameRefl(stack, func + 1);
      base := func + 1;
      if !cl.isVararg {
        if top > base + cl.numparams {
          top := base + cl.numparams;
        }
        AdjustedPlain(cl, stack, func, old(top));
      } else {
        base := AdjustVarargs(cl, func);
        AdjustedVarargs(cl, was, func, old(top), stack, base);
      }
    }

    /** The second half of luaD_precall: a new frame, with its closure's counter raised.  Nothing can
        fail once L->ci has moved. */
    method PushFrame(cl: Closure, func: nat, base: nat, nresults: int, ghost args: seq<Value>)
      returns (r: Called)
      requires ci < |baseCi| && Accounted(nopencalls, baseCi, stack, ci)
      requires baseCi[ci].base <= func < base <= top && Slot(stack, func) == Function(cl)
      requires nresults >= MULTRET
      requires if cl.isC then base == func + 1 && args == Arguments(stack, func, top) else Adjusted(cl, args, stack, func, base, top)
      modifies this
      ensures Valid() && ci >= old(ci) && baseCi[..old(ci) + 1] == old(baseCi[..ci + 1])
      ensures SameBelow(old(stack), stack, func + 1) && |baseCi| == Grown(old(baseCi), old(ci))
      ensures r.Error? <==> Full(old(baseCi), old(ci))
      ensures r.Error? ==> r.e == Overflow(old(baseCi)) && ci == old(ci) && nopencalls == old(nopencalls) && top > func
      ensures !r.Error? ==>
        && ci == old(ci) + 1 && baseCi[ci].func == func && baseCi[ci].nresults == nresults
        && nopencalls == old(nopencalls)[cl := Opens(old(nopencalls), cl) + 1]
        && (r == PCRC <==> cl.isC)
        && (r == PCRLUA ==> top == baseCi[ci].top && Entered(baseCi[ci], stack, cl, args))
        && (r == PCRC ==> EnteredC(baseCi[ci], stack, top, args))
    {
      hide Accounted, Entered, Adjusted, Kept;
      ghost var frames, was, below := baseCi, stack, top;
      var ok, e := IncCi();
      if !ok {
        Rebase(nopencalls, frames, was, baseCi, stack, ci, func);
        return Error(e);
      }
      var limit := if cl.isC then top + MINSTACK else base + cl.maxstacksize;
      baseCi := baseCi[ci := CallInfo(func, base, limit, nresults, 0)];
      if !cl.isC {
        FillNil(top, limit);
        top := limit;
        AdjustedEntered(cl, args, was, below, baseCi[ci], stack);
      }
      nopencalls := nopencalls[cl := Opens(nopencalls, cl) + 1];
      r := if cl.isC then PCRC else PCRLUA;
      Push(old(nopencalls), frames, was, baseCi, stack, old(ci), cl);
    }

    /** luaD_precall, up to the call of the C function when it is one.  An error leaves every counter
        and every frame alone. */
    method PreCall(func: nat, nresults: int) returns (r: Called)
      requires Valid() && baseCi[ci].base <= func < top && nresults >= MULTRET
      modifies this
      ensures Valid() && PreCalled(old(Here()), func, nresults, r, Here())
    {
      hide Accounted, Entered, EnteredC, Adjusted, Kept, Arguments;
      ghost var was, args := stack, Arguments(stack, func, top);
      SameRefl(was, func);
      if !Slot(stack, func).Function? {
        var found := TryFuncTM(func);
        Rebase(nopencalls, baseCi, was, baseCi, stack, ci, func);
        if !found {
          return Error(AttemptToCall);
        }
      }
      var cl := Slot(stack, func).cl;
      var base := func + 1;
      if !cl.isC {
        ghost var called := stack;
        base := AdjustArgs(cl, func, args);
        SameThrough(was, called, stack, func);
        Rebase(nopencalls, baseCi, was, baseCi, stack, ci, func);
      }
      ghost var ready := stack;
      r := PushFrame(cl, func, base, nresults, args);
      SameThrough(was, ready, stack, func);
    }

    /** luaD_unwindci: takes the frames above `newci` off the counters of the closures they hold.
        Called with newci one above oldci, as a tail call does, it only takes off the frame at oldci,
        the one being replaced. */
    method UnwindCi(newci: nat, oldci: nat) returns (r: nat)
      requires newci <= oldci || newci == oldci + 1
      requires newci > oldci ==> oldci >= 1
      requires oldci < |baseCi| && ci < |baseCi| && Framed(baseCi, stack, oldci)
      requires forall c :: Opens(nopencalls, c) >= Holding(c, baseCi, stack, oldci)
      modifies `nopencalls
      ensures r == if newci > oldci then oldci else newci
      ensures TakenOff(old(nopencalls), nopencalls, baseCi, stack,
                       if newci > oldci then oldci - 1 else newci, oldci)
    {
      if oldci == newci {
        return newci;
      }
      var tailcall := newci == oldci + 1;
      var cibase := if tailcall then oldci - 1 else newci;
      var k := oldci;
      while k != cibase
        invariant cibase <= k <= oldci
        invariant TakenOff(old(nopencalls), nopencalls, baseCi, stack, k, oldci)
      {
        assert OnTop(baseCi, stack, k);
        var cl := Slot(stack, baseCi[k].func).cl;
        assert Opens(nopencalls, cl) > 0;
        nopencalls := nopencalls[cl := Opens(nopencalls, cl) - 1];
        k := k - 1;
      }
      r := if tailcall then oldci else newci;
    }

    /** The results of a call, brought to where the caller wants them. */
    method MoveResults(res: nat, firstResult: nat, wanted: int)
      requires res <= firstResult <= top && wanted >= MULTRET
      modifies `stack, `top
      ensures SameBelow(old(stack), stack, res)
      ensures Delivered(old(stack), old(top), stack, top, res, firstResult, wanted)
    {
      var i, k := wanted, 0;
      while i != 0 && firstResult + k < top
        invariant k <= top - firstResult && top == old(top)
        invariant i == wanted - k && (wanted != MULTRET ==> i >= 0)
        invariant forall j: nat :: res <= j < res + k ==> Slot(stack, j) == Slot(old(stack), j - res + firstResult)
        invariant forall j: nat :: j < res || firstResult + k <= j ==> Slot(stack, j) == Slot(old(stack), j)
        decreases top - firstResult - k
      {
        stack := Stored(stack, res + k, Slot(stack, firstResult + k));
        i := i - 1;
        k := k + 1;
      }
      ghost var moved := stack;
      ghost var have := k;
      while i > 0
        invariant k >= have && top == old(top)
        invariant wanted != MULTRET ==> i == wanted - k && i >= 0
        invariant wanted == MULTRET ==> k == have && i < 0
        invariant forall j: nat :: Slot(stack, j) == if res + have <= j < res + k then Nil else Slot(moved, j)
      {
        stack := Stored(stack, res + k, Nil);
        i := i - 1;
        k := k + 1;
      }
      top := res + k;
    }

    /** luaD_poscall: the frame is taken off before its function slot receives the first result. */
    method PosCall(firstResult: nat) returns (r: int)
      requires Valid() && ci >= 1
      requires baseCi[ci].base <= firstResult <= top
      modifies this
      ensures Valid() && Returned(old(Here()), firstResult, Here())
      ensures r == old(baseCi[ci].nresults) - MULTRET
    {
      hide Delivered, TakenOff, Kept, SameBelow, Holding;
      ghost var calls, was := nopencalls, stack;
      assert OnTop(baseCi, stack, ci);
      var res := baseCi[ci].func;
      var wanted := baseCi[ci].nresults;
      ci := UnwindCi(ci - 1, ci);
      Unwound(calls, nopencalls, baseCi, stack, ci, old(ci));
      MoveResults(res, firstResult, wanted);
      Rebase(nopencalls, baseCi, was, baseCi, stack, ci, res);
      r := wanted - MULTRET;
    }

    /** Moves the new frame's slots down onto the old one's. */
    method MoveFrame(func: nat, pfunc: nat)
      requires func < pfunc <= top
      modifies `stack, `top
      ensures top == old(top) - (pfunc - func)
      ensures SameBelow(old(stack), stack, func)
      ensures forall j: nat :: func <= j < top ==> Slot(stack, j) == Slot(old(stack), j - func + pfunc)
    {
      var aux := 0;
      while pfunc + aux < top
        invariant pfunc + aux <= top == old(top)
        invariant forall j: nat :: func <= j < func + aux ==> Slot(stack, j) == Slot(old(stack), j - func + pfunc)
        invariant forall j: nat :: j < func || func + aux <= j ==> Slot(stack, j) == Slot(old(stack), j)
      {
        stack := Stored(stack, func + aux, Slot(stack, pfunc + aux));
        aux := aux + 1;
      }
      top := func + aux;
    }

    /** OP_TAILCALL: a Lua callee takes over the frame of its caller, whose closure is one open call
        poorer; a C function just gets a frame of its own. */
    method TailCall(func: nat) returns (r: Called)
      requires Valid() && ci >= 1 && baseCi[ci].base <= func < top
      modifies this
      ensures Valid() && TailCalled(old(Here()), func, r, Here())
    {
      hide Accounted, Entered, EnteredC, Kept, SameBelow, Holding, TakenOff, Arguments, Exchanged;
      ghost var frames, calls, was, n := baseCi, nopencalls, stack, ci;
      Stacked(nopencalls, baseCi, stack, ci, ci);
      r := PreCall(func, MULTRET);
      assert baseCi[..n + 1][..n] == frames[..n];
      assert baseCi[..n + 1][n] == frames[n];
      if r != PCRLUA {
        return;
      }
      ghost var mid, middle, entered := baseCi, nopencalls, stack;
      ghost var args := Arguments(was, func, old(top));
      ghost var cl := Slot(stack, func).cl;
      Stacked(nopencalls, baseCi, stack, ci, ci);
      Enough(nopencalls, baseCi, stack, ci, ci - 1);
      var k := UnwindCi(ci, ci - 1);
      var to := baseCi[k].func;
      var pfunc := baseCi[k + 1].func;
      MoveFrame(to, pfunc);
      baseCi := baseCi[k := baseCi[k].(base := to + (baseCi[k + 1].base - pfunc), top := top,
                                       tailcalls := baseCi[k].tailcalls + 1)];
      ci := ci - 1;
      SameLess(was, entered, func, to);
      SameThrough(was, entered, stack, to);
      Replaced(middle, nopencalls, mid, entered, baseCi, stack, n);
      PushedAndTakenOff(calls, nopencalls, mid, entered, n, cl);
      SameAt(was, entered, func, to);
      EnteredMoved(mid[n + 1], entered, cl, args, baseCi[n], stack);
    }

    /** restore_stack_limit: shrinks the array of frames again once the overflow is undone. */
    method RestoreStackLimit()
      requires Valid()
      modifies `baseCi
      ensures Valid() && baseCi[..ci + 1] == old(baseCi[..ci + 1]) && |baseCi| == CutBack(old(baseCi), ci)
    {
      if |baseCi| > MAXCALLS {
        var inuse := ci;
        if inuse + 1 < MAXCALLS {
          ghost var frames := baseCi;
          ReallocCI(MAXCALLS);
          SameRefl(stack, baseCi[ci].base);
          assert baseCi[..ci + 1][ci] == frames[..ci + 1][ci];
          Rebase(nopencalls, frames, stack, baseCi, stack, ci, baseCi[ci].base);
        }
      }
    }

    /** The error branch of luaD_pcall: every frame above the one that made the protected call is taken
        off, and the error message left on top of the stack moves to where the function stood. */
    method Recover(oldCi: nat, oldTop: nat)
      requires Valid() && oldCi <= ci && baseCi[oldCi].base <= oldTop && top >= 1
      modifies this
      ensures Valid() && Recovered(old(Here()), oldCi, oldTop, Here())
    {
      hide Accounted, Holding, TakenOff, Kept;
      ghost var calls, was, n := nopencalls, stack, ci;
      Enough(nopencalls, baseCi, stack, ci, ci);
      ci := UnwindCi(oldCi, ci);
      Unwound(calls, nopencalls, baseCi, stack, oldCi, n);
      stack := Stored(stack, oldTop, Slot(stack, top - 1));
      top := oldTop + 1;
      Rebase(nopencalls, baseCi, was, baseCi, stack, ci, oldTop);
      RestoreStackLimit();
    }

    /** luaG_runerror and lua_error: the message goes on top of the stack. */
    method Throw(msg: Value)
      requires Valid()
      modifies `stack, `top
      ensures Valid() && Threw(old(Here()), msg, Here())
      ensures SameBelow(old(stack), stack, old(top))
    {
      ghost var was := stack;
      stack := Stored(stack, top, msg);
      top := top + 1;
      Rebase(nopencalls, baseCi, was, baseCi, stack, ci, old(top));
    }

    /** Any run of calls, returns, tail calls, protected calls, errors and register writes, in the
        frames from `floor` up.  Every step keeps the accounting, and nothing below `floor` is disturbed. */
    method Exec(p: Run, floor: nat, at: nat) returns (out: Outcome)
      requires Valid() && floor <= ci
      requires if floor == 0 then at == 0 else baseCi[floor].func == at
      modifies this
      ensures Valid() && Ran(p, floor, old(Here()), Here(), out)
      ensures floor <= ci + 1 && Undisturbed(old(baseCi), old(stack), baseCi, stack, floor, at)
      ensures 1 <= floor <= ci ==> baseCi[floor].func == at
      ensures out.Thrown? ==> floor <= ci && top >= 1
      decreases p, 0
    {
      hide Accounted, Did, Ran, GoesOn, SameBelow, Possible;
      ghost var m0 := Here();
      SameRefl(stack, at);
      if p.Done? {
        RanDone(floor, m0);
        return Fine;
      }
      if Possible(Here(), p.op) {
        out := Step(p.op, floor, at);
        ghost var f, s, m, o := baseCi, stack, Here(), out;
        if out.Fine? && floor <= ci {
          out := Exec(p.rest, floor, at);
          UndisturbedStep(old(baseCi), old(stack), f, s, baseCi, stack, floor, at, floor, at);
        }
        RanStep(p.op, p.rest, floor, m0, m, o, Here(), out);
      } else {
        out := Exec(p.rest, floor, at);
        RanPast(p.op, p.rest, floor, m0, Here(), out);
      }
    }

    method Step(op: Op, floor: nat, at: nat) returns (out: Outcome)
      requires Valid() && floor <= ci && Possible(Here(), op)
      requires if floor == 0 then at == 0 else baseCi[floor].func == at
      modifies this
      ensures Valid() && Did(op, old(Here()), Here(), out)
      ensures floor <= ci + 1 && Undisturbed(old(baseCi), old(stack), baseCi, stack, floor, at)
      ensures 1 <= floor <= ci ==> baseCi[floor].func == at
      ensures out.Thrown? ==> floor <= ci && top >= 1
      decreases op, 2
    {
      hide Accounted, Holding, TakenOff, Kept, Delivered, Did, Protects, PreCalled, TailCalled, SameBelow, SameCounts;
      ghost var m0, f, s, n := Here(), baseCi, stack, ci;
      SameRefl(s, at);
      FuncAbove(nopencalls, f, s, n, floor, at);
      if floor >= 1 {
        Stacked(nopencalls, baseCi, stack, ci, floor);
        Stacked(nopencalls, baseCi, stack, ci, ci);
      }
      out := Fine;
      match op {
        case Call(func, nresults) =>
          out := MakeCall(func, nresults, floor, at);
        case PCall(func, nresults, body) =>
          var status := Protected(func, nresults, body);
          ProtectsKeeps(func, nresults, body, m0, Here(), status);
          UndisturbedStep(f, s, f, s, baseCi, stack, floor, at, n + 1, func);
          DidPCall(func, nresults, body, m0, Here(), status);
        case TailCall(func) =>
          out := MakeTailCall(func, floor, at);
        case Return(first) =>
          var wanted := PosCall(first);
          UndisturbedStep(f, s, f, s, baseCi, stack, floor, at, n, f[n].func);
          DidOther(op, m0, Here(), out);
        case Store(i, v) =>
          stack := Stored(stack, i, v);
          StoredAbove(s, i, v);
          Rebase(nopencalls, f, s, baseCi, stack, ci, i);
          UndisturbedStep(f, s, f, s, baseCi, stack, floor, at, n, i);
          DidOther(op, m0, Here(), out);
        case SetTop(i) =>
          top := i;
          DidOther(op, m0, Here(), out);
        case Raise(msg) =>
          out := Thrown(msg);
          Throw(msg);
          UndisturbedStep(f, s, f, s, baseCi, stack, floor, at, floor, m0.top);
          DidOther(op, m0, Here(), out);
      }
    }

    method MakeCall(func: nat, nresults: int, floor: nat, at: nat) returns (out: Outcome)
      requires Valid() && floor <= ci && Possible(Here(), Call(func, nresults))
      requires if floor == 0 then at == 0 else baseCi[floor].func == at
      modifies this
      ensures Valid() && Did(Call(func, nresults), old(Here()), Here(), out)
      ensures floor <= ci && Undisturbed(old(baseCi), old(stack), baseCi, stack, floor, at)
      ensures 1 <= floor ==> baseCi[floor].func == at
      ensures out.Thrown? ==> top >= 1
    {
      hide Accounted, Holding, Kept, Entered, EnteredC, Arguments, Did, SameBelow;
      ghost var m0, f, s, n := Here(), baseCi, stack, ci;
      SameRefl(s, at);
      FuncAbove(nopencalls, f, s, n, floor, at);
      if floor >= 1 { Stacked(nopencalls, baseCi, stack, ci, ci); }
      var r := PreCall(func, nresults);
      UndisturbedStep(f, s, f, s, baseCi, stack, floor, at, n + 1, func);
      ghost var m := Here();
      out := Check(r, at);
      UndisturbedStep(f, s, m.frames, m.stack, baseCi, stack, floor, at, floor, at);
      DidCall(func, nresults, m0, r, m, Here(), out);
    }

    method MakeTailCall(func: nat, floor: nat, at: nat) returns (out: Outcome)
      requires Valid() && floor <= ci && Possible(Here(), Op.TailCall(func))
      requires if floor == 0 then at == 0 else baseCi[floor].func == at
      modifies this
      ensures Valid() && Did(Op.TailCall(func), old(Here()), Here(), out)
      ensures floor <= ci && Undisturbed(old(baseCi), old(stack), baseCi, stack, floor, at)
      ensures 1 <= floor ==> baseCi[floor].func == at
      ensures out.Thrown? ==> top >= 1
    {
      hide Accounted, Holding, Kept, Did, SameBelow, TailCalled;
      ghost var m0, f, s, n := Here(), baseCi, stack, ci;
      SameRefl(s, at);
      FuncAbove(nopencalls, f, s, n, floor, at);
      Stacked(nopencalls, baseCi, stack, ci, ci);
      var r := TailCall(func);
      TailKeeps(m0, func, r, Here());
      UndisturbedStep(f, s, f, s, baseCi, stack, floor, at, n, f[n].func);
      ghost var m := Here();
      out := Check(r, at);
      UndisturbedStep(f, s, m.frames, m.stack, baseCi, stack, floor, at, floor, at);
      DidTailCall(func, m0, r, m, Here(), out);
    }

    /** An error of luaD_precall is raised. */
    method Check(r: Called, at: nat) returns (out: Outcome)
      requires Valid() && (r.Error? ==> at <= top)
      modifies `stack, `top
      ensures Valid() && CalledOrThrew(old(Here()), r, Here(), out)
      ensures SameBelow(old(stack), stack, at)
    {
      SameRefl(stack, at);
      if r.Error? {
        Throw(Message(r.e));
        return Thrown(Message(r.e));
      }
      out := Fine;
    }

    /** The frames still open when the body ends return without results. */
    method Finish(oldCi: nat, func: nat)
      requires Valid() && oldCi <= ci
      requires oldCi < ci ==> baseCi[oldCi + 1].func == func
      modifies this
      ensures Valid() && ci == oldCi && baseCi == old(baseCi) && SameBelow(old(stack), stack, func)
      ensures Finished(old(Here()), oldCi, Here())
    {
      hide Accounted, Holding, TakenOff, Kept, Delivered, SameBelow, Finished;
      SameRefl(stack, func);
      ghost var past := [Here()];
      while ci > oldCi
        invariant Valid() && oldCi <= ci && baseCi == old(baseCi)
        invariant SameBelow(old(stack), stack, func)
        invariant past != [] && past[0] == old(Here()) && past[|past| - 1] == Here()
        invariant forall k :: 0 <= k < |past| - 1 ==> OneReturned(oldCi, past[k], past[k + 1])
      {
        ghost var s, m := stack, Here();
        Stacked(nopencalls, baseCi, stack, ci, ci);
        FuncAbove(nopencalls, baseCi, stack, ci, oldCi + 1, func);
        var wanted := PosCall(top);
        SameLess(s, stack, baseCi[ci + 1].func, func);
        SameThrough(old(stack), s, stack, func);
        past := past + [Here()];
      }
      AllReturned(oldCi, past);
    }

    /** luaD_pcall around a call: however the protected run went, and whatever it called, afterwards
        the frames are those from before and every closure's counter reads what it read before. */
    method Protected(func: nat, nresults: int, body: Run) returns (status: Outcome)
      requires Valid() && baseCi[ci].base <= func < top && nresults >= MULTRET
      modifies this
      ensures Valid() && Protects(func, nresults, body, old(Here()), Here(), status)
      decreases body, 2
    {
      hide Accounted, Holding, TakenOff, Kept, Finished, ProtectedBody, PreCalled, BodyOutcome, SameBelow, SameCounts;
      ghost var m0, f, s, n, calls := Here(), baseCi, stack, ci, nopencalls;
      var oldCi := ci;
      ghost var r, m;
      status, r, m := CallBody(func, nresults, body);
      ghost var e := Here();
      if status.Thrown? {
        Recover(oldCi, func);
      } else {
        Finish(oldCi, func);
      }
      UndisturbedStep(f, s, e.frames, e.stack, baseCi, stack, n + 1, func, n + 1, func);
      SameCountsAgain(calls, f, s, nopencalls, baseCi, stack, n, func);
      BodyProtected(func, body, m0, r, m, e, Here(), status);
    }

    /** The call and its body, or the error of the call. */
    method CallBody(func: nat, nresults: int, body: Run) returns (status: Outcome, ghost r: Called, ghost m: Moment)
      requires Valid() && baseCi[ci].base <= func < top && nresults >= MULTRET
      modifies this
      ensures Valid() && PreCalled(old(Here()), func, nresults, r, m) && BodyOutcome(body, old(ci), r, m, Here(), status)
      ensures Undisturbed(old(baseCi), old(stack), baseCi, stack, old(ci) + 1, func)
      ensures old(ci) < |baseCi| && baseCi[old(ci)].base <= func && (status.Thrown? ==> old(ci) <= ci && top >= 1)
      ensures status.Fine? ==> old(ci) <= ci && (old(ci) < ci ==> baseCi[old(ci) + 1].func == func)
      decreases body, 1
    {
      hide Accounted, Holding, TakenOff, Kept, Entered, EnteredC, Arguments, Delivered, Exchanged, Ran, SameBelow, SameCounts;
      ghost var f, s, n := baseCi, stack, ci;
      var oldCi := ci;
      SameRefl(s, func);
      var called := PreCall(func, nresults);
      UndisturbedStep(f, s, f, s, baseCi, stack, n + 1, func, n + 1, func);
      r, m := called, Here();
      if called.Error? {
        status := Thrown(Message(called.e));
        Throw(Message(called.e));
        UndisturbedStep(f, s, m.frames, m.stack, baseCi, stack, n + 1, func, n + 1, m.top);
      } else {
        status := Exec(body, oldCi + 1, func);
        UndisturbedStep(f, s, m.frames, m.stack, baseCi, stack, n + 1, func, n + 1, func);
      }
      Begins(f, baseCi, n);
    }
  }
}
