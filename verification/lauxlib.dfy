/** References: luaL_ref and luaL_unref (lauxlib.c) on a table used for nothing else. */
module LuaRef {
  import opened LuaObject
  import opened LuaTable
  import TableSizes

  const FREELIST_REF: int := 0
  const LUA_REFNIL: int := -1

  /** lua_toint: anything that is not a number reads as 0. */
  function ToInt(v: Value): int {
    if v.Integer? then v.n else 0
  }

  /** The i-th entry of the free list holds the reference after it; the last one holds nothing. */
  ghost predicate LinkedAt(m: map<Value, Value>, free: seq<int>, i: int) {
    0 <= i < |free| ==>
      InMap(m, Integer(free[i])) == if i + 1 < |free| then Integer(free[i + 1]) else Nil
  }

  ghost predicate InRange(free: seq<int>, n: nat, i: int) {
    0 <= i < |free| ==> 1 <= free[i] <= n
  }

  ghost predicate Apart(free: seq<int>, i: int, j: int) {
    0 <= i < j < |free| ==> free[i] != free[j]
  }

  /** A reference in use: one handed out and not on the free list. */
  predicate Live(free: seq<int>, n: nat, ref: int) {
    1 <= ref <= n && ref !in free
  }

  /** The state of the table after n references have been created, those in `free` given back: entry 0
      heads the list of free references, every live one holds its value, and there is nothing else. */
  ghost predicate Refs(m: map<Value, Value>, free: seq<int>, n: nat) {
    && (forall i :: InRange(free, n, i) && LinkedAt(m, free, i))
    && (forall i, j :: Apart(free, i, j))
    && InMap(m, Integer(FREELIST_REF)) == (if free == [] then Nil else Integer(free[0]))
    && (forall ref :: Live(free, n, ref) ==> InMap(m, Integer(ref)) != Nil)
    && (forall k :: InMap(m, k) != Nil ==> k.Integer? && 0 <= k.n <= n)
  }

  /** The live references and their values. */
  ghost function View(m: map<Value, Value>, free: seq<int>, n: nat): map<int, Value> {
    map ref | 1 <= ref <= n && Live(free, n, ref) :: InMap(m, Integer(ref))
  }

  lemma PutSize(m: map<Value, Value>, key: Value, v: Value)
    ensures |Put(m, key, v)| <= |m| + 1
  {
    var m' := Put(m, key, v);
    assert m'.Keys <= m.Keys + {key};
    TableSizes.Subset(m'.Keys, m.Keys + {key});
    assert |m'| == |m'.Keys| && |m| == |m.Keys|;
  }

  lemma InMapPut(m: map<Value, Value>, key: Value, v: Value)
    ensures forall k :: InMap(Put(m, key, v), k) == if k == key then v else InMap(m, k)
  {
  }

  lemma NotFree(free: seq<int>)
    requires free != [] && forall i, j :: Apart(free, i, j)
    ensures free[0] !in free[1..]
    ensures forall i, j :: Apart(free[1..], i, j)
    ensures forall ref :: ref in free <==> ref == free[0] || ref in free[1..]
  {
    assert free == [free[0]] + free[1..];
    forall i | 0 <= i < |free[1..]| ensures free[1..][i] != free[0] {
      assert Apart(free, 0, i + 1);
    }
    forall i, j ensures Apart(free[1..], i, j) {
      assert Apart(free, i + 1, j + 1);
    }
  }

  /** The books after one more reference is live, or one less: whatever is live keeps its value. */
  lemma ViewAfter(m: map<Value, Value>, free: seq<int>, n: nat, m': map<Value, Value>, free': seq<int>, n': nat,
                  ref: int)
    requires 1 <= ref <= n' && n <= n'
    requires forall r :: 1 <= r <= n' && r != ref ==> (Live(free', n', r) <==> Live(free, n, r))
    requires forall r :: Live(free, n, r) && r != ref ==> InMap(m', Integer(r)) == InMap(m, Integer(r))
    ensures Live(free', n', ref) ==> View(m', free', n') == View(m, free, n)[ref := InMap(m', Integer(ref))]
    ensures !Live(free', n', ref) ==> View(m', free', n') == View(m, free, n) - {ref}
  {
    hide InMap;
    var w := View(m', free', n');
    var v := if Live(free', n', ref) then View(m, free, n)[ref := InMap(m', Integer(ref))] else View(m, free, n) - {ref};
    forall r ensures r in w <==> r in v {
    }
    forall r | r in w ensures w[r] == v[r] {
    }
  }

  /** Taking the first free reference. */
  lemma Reused(m: map<Value, Value>, free: seq<int>, n: nat, v: Value, m': map<Value, Value>)
    requires Refs(m, free, n) && free != [] && v != Nil
    requires m' == Put(Put(m, Integer(FREELIST_REF), InMap(m, Integer(free[0]))), Integer(free[0]), v)
    ensures Refs(m', free[1..], n) && free[0] !in View(m, free, n)
    ensures View(m', free[1..], n) == View(m, free, n)[free[0] := v]
  {
    hide InMap, Put, View;
    NotFree(free);
    var mid := Put(m, Integer(FREELIST_REF), InMap(m, Integer(free[0])));
    InMapPut(m, Integer(FREELIST_REF), InMap(m, Integer(free[0])));
    InMapPut(mid, Integer(free[0]), v);
    assert InRange(free, n, 0) && LinkedAt(m, free, 0);
    forall i ensures InRange(free[1..], n, i) && LinkedAt(m', free[1..], i) {
      assert InRange(free, n, i + 1) && LinkedAt(m, free, i + 1) && Apart(free, 0, i + 1);
    }
    forall ref | Live(free[1..], n, ref) ensures InMap(m', Integer(ref)) != Nil {
      assert ref != free[0] ==> Live(free, n, ref);
    }
    ViewAfter(m, free, n, m', free[1..], n, free[0]);
    NotLive(m, free, n, free[0]);
  }

  lemma NotLive(m: map<Value, Value>, free: seq<int>, n: nat, ref: int)
    requires !Live(free, n, ref)
    ensures ref !in View(m, free, n)
  {
  }

  /** Creating a reference. */
  lemma Created(m: map<Value, Value>, n: nat, v: Value)
    requires Refs(m, [], n) && v != Nil
    ensures var m' := Put(m, Integer(n + 1), v);
            Refs(m', [], n + 1) && View(m', [], n + 1) == View(m, [], n)[n + 1 := v]
  {
    hide InMap, Put, View;
    var m' := Put(m, Integer(n + 1), v);
    InMapPut(m, Integer(n + 1), v);
    forall i ensures InRange([], n + 1, i) && LinkedAt(m', [], i) {
    }
    forall ref | Live([], n + 1, ref) ensures InMap(m', Integer(ref)) != Nil {
      assert ref != n + 1 ==> Live([], n, ref);
    }
    ViewAfter(m, [], n, m', [], n + 1, n + 1);
  }

  /** Giving a live reference back. */
  lemma GivenBack(m: map<Value, Value>, free: seq<int>, n: nat, ref: int, m': map<Value, Value>)
    requires Refs(m, free, n) && Live(free, n, ref)
    requires m' == Put(Put(m, Integer(ref), InMap(m, Integer(FREELIST_REF))), Integer(FREELIST_REF), Integer(ref))
    ensures Refs(m', [ref] + free, n)
    ensures View(m', [ref] + free, n) == View(m, free, n) - {ref}
  {
    hide InMap, Put, View;
    var after := [ref] + free;
    var mid := Put(m, Integer(ref), InMap(m, Integer(FREELIST_REF)));
    InMapPut(m, Integer(ref), InMap(m, Integer(FREELIST_REF)));
    InMapPut(mid, Integer(FREELIST_REF), Integer(ref));
    forall i ensures InRange(after, n, i) && LinkedAt(m', after, i) {
      assert InRange(free, n, i - 1) && LinkedAt(m, free, i - 1);
    }
    forall i, j ensures Apart(after, i, j) {
      assert Apart(free, i - 1, j - 1);
    }
    forall r | Live(after, n, r) ensures InMap(m', Integer(r)) != Nil {
      assert Live(free, n, r);
    }
    ViewAfter(m, free, n, m', after, n, ref);
  }

  /** With no free reference the created ones are exactly 1 to n, so any border of the table is n. */
  lemma OneBorder(t: Table, n: nat, b: int)
    requires t.Valid() && Refs(t.Contents(), [], n) && t.Border(b)
    ensures b == n
  {
    t.ContentsAgree();
    if 0 < b {
      assert InMap(t.Contents(), Integer(b)) != Nil;
    }
    assert InMap(t.Contents(), Integer(b + 1)) == Nil;
    assert !Live([], n, b + 1);
  }

  lemma Empty(m: map<Value, Value>)
    requires m == map[]
    ensures Refs(m, [], 0) && View(m, [], 0) == map[]
  {
    assert forall i :: InRange([], 0, i) && LinkedAt(m, [], i);
    assert forall i, j :: Apart([], i, j);
  }

  /** lua_rawgeti */
  method RawGetI(t: Table, n: int) returns (v: Value)
    requires t.Valid()
    ensures v == InMap(t.Contents(), Integer(n))
  {
    v := t.RawGet(Integer(n));
  }

  /** lua_rawseti */
  method RawSetI(t: Table, n: int, v: Value) returns (r: Result<()>)
    requires t.Valid()
    modifies t
    ensures r.Ok? ==> t.Valid() && t.Contents() == Put(old(t.Contents()), Integer(n), v)
    ensures r.Err? ==> r.error == Overflow && |old(t.Contents())| >= TableSizes.MAXASIZE
  {
    r := t.RawSet(Integer(n), v);
  }

  /** The branch of luaL_ref that takes the first free reference. */
  method TakeFree(t: Table, ref: int, v: Value, ghost free: seq<int>, ghost n: nat) returns (r: Result<int>)
    requires t.Valid() && Refs(t.Contents(), free, n) && v != Nil && free != [] && ref == free[0]
    modifies t
    ensures r.Ok? ==> r.value == ref && t.Valid() && Refs(t.Contents(), free[1..], n)
    ensures r.Ok? ==> ref !in View(old(t.Contents()), free, n)
    ensures r.Ok? ==> View(t.Contents(), free[1..], n) == View(old(t.Contents()), free, n)[ref := v]
    ensures r.Err? ==> r.error == Overflow && |old(t.Contents())| + 1 >= TableSizes.MAXASIZE
  {
    hide *;
    ghost var m := t.Contents();
    var next := RawGetI(t, ref);
    var s := RawSetI(t, FREELIST_REF, next);
    if s.Err? {
      return Err(s.error);
    }
    PutSize(m, Integer(FREELIST_REF), next);
    s := RawSetI(t, ref, v);
    if s.Err? {
      return Err(s.error);
    }
    Reused(m, free, n, v, t.Contents());
    r := Ok(ref);
  }

  /** luaL_ref: the value gets a reference that is not in use, a given back one before a fresh one; nil
      always gets LUA_REFNIL.  `free` and `n` are what Refs says of the table. */
  method Ref(t: Table, v: Value, ghost free: seq<int>, ghost n: nat)
    returns (r: Result<int>, ghost free': seq<int>, ghost n': nat)
    requires t.Valid() && Refs(t.Contents(), free, n) && !v.Dead?
    modifies t
    ensures r.Ok? ==> t.Valid() && Refs(t.Contents(), free', n')
    ensures r.Ok? && v == Nil ==> r.value == LUA_REFNIL && t.Contents() == old(t.Contents()) && free' == free && n' == n
    ensures r.Ok? && v != Nil ==>
      && r.value !in View(old(t.Contents()), free, n)
      && View(t.Contents(), free', n') == View(old(t.Contents()), free, n)[r.value := v]
      && (if free != [] then r.value == free[0] && free' == free[1..] && n' == n
          else r.value == n + 1 && free' == [] && n' == n + 1)
    ensures r.Err? ==> r.error == Overflow && |old(t.Contents())| + 1 >= TableSizes.MAXASIZE
  {
    hide *;
    free', n' := free, n;
    if v == Nil {
      return Ok(LUA_REFNIL), free, n;
    }
    ghost var m := t.Contents();
    var head := RawGetI(t, FREELIST_REF);
    HeadOf(m, free, n);
    var ref := ToInt(head);
    if ref != 0 {
      r := TakeFree(t, ref, v, free, n);
      free' := free[1..];
    } else {
      ref := t.LuaHGetN();
      OneBorder(t, n, ref);
      ref := ref + 1;
      var s := RawSetI(t, ref, v);
      if s.Err? {
        return Err(s.error), free, n;
      }
      Created(m, n, v);
      NewRef(m, n);
      r := Ok(ref);
      n' := n + 1;
    }
  }

  lemma NewRef(m: map<Value, Value>, n: nat)
    ensures n + 1 !in View(m, [], n)
  {
  }

  lemma HeadOf(m: map<Value, Value>, free: seq<int>, n: nat)
    requires Refs(m, free, n)
    ensures ToInt(InMap(m, Integer(FREELIST_REF))) == if free == [] then 0 else free[0]
    ensures free != [] ==> free[0] != 0
  {
    assert InRange(free, n, 0);
  }

  /** luaL_unref: a live reference is given back, and goes to the head of the free list. */
  method Unref(t: Table, ref: int, ghost free: seq<int>, ghost n: nat)
    returns (r: Result<()>, ghost free': seq<int>)
    requires t.Valid() && Refs(t.Contents(), free, n)
    requires ref >= 0 ==> ref in View(t.Contents(), free, n)
    modifies t
    ensures r.Ok? ==> t.Valid() && Refs(t.Contents(), free', n)
    ensures r.Ok? && ref < 0 ==> t.Contents() == old(t.Contents()) && free' == free
    ensures r.Ok? && ref >= 0 ==>
      free' == [ref] + free && View(t.Contents(), free', n) == View(old(t.Contents()), free, n) - {ref}
    ensures r.Err? ==> r.error == Overflow && |old(t.Contents())| + 1 >= TableSizes.MAXASIZE
  {
    hide *;
    if ref < 0 {
      return Ok(()), free;
    }
    InView(t.Contents(), free, n, ref);
    ghost var m := t.Contents();
    var head := RawGetI(t, FREELIST_REF);
    var s := RawSetI(t, ref, head);
    if s.Err? {
      return Err(s.error), free;
    }
    PutSize(m, Integer(ref), head);
    s := RawSetI(t, FREELIST_REF, Integer(ref));
    if s.Err? {
      return Err(s.error), free;
    }
    GivenBack(m, free, n, ref, t.Contents());
    return Ok(()), [ref] + free;
  }

  lemma InView(m: map<Value, Value>, free: seq<int>, n: nat, ref: int)
    requires ref in View(m, free, n)
    ensures Live(free, n, ref)
  {
  }

  // ---- Any use of a table as a store of references

  datatype RefOp = DoRef(v: Value) | DoUnref(ref: int)

  /** What the references are, without a table: those given back, how many were created, and the live ones
      with their values. */
  datatype RefState = RefState(free: seq<int>, n: nat, live: map<int, Value>)

  function NextRef(s: RefState): int {
    if s.free != [] then s.free[0] else s.n + 1
  }

  /** One use; giving back a reference that is not live is no use of it. */
  function Played(s: RefState, op: RefOp): RefState {
    match op
    case DoRef(v) =>
      if v == Nil then s
      else RefState(if s.free != [] then s.free[1..] else [], if s.free != [] then s.n else s.n + 1,
                    s.live[NextRef(s) := v])
    case DoUnref(ref) =>
      if ref < 0 || ref !in s.live then s else RefState([ref] + s.free, s.n, s.live - {ref})
  }

  function PlayedAll(s: RefState, ops: seq<RefOp>): RefState
    decreases |ops|
  {
    if ops == [] then s else PlayedAll(Played(s, ops[0]), ops[1..])
  }

  ghost predicate Stands(t: Table, s: RefState)
    reads t
  {
    t.Valid() && Refs(t.Contents(), s.free, s.n) && View(t.Contents(), s.free, s.n) == s.live
  }

  /** There are no more entries than references created, and the head of the free list. */
  lemma FewEntries(t: Table, free: seq<int>, n: nat)
    requires t.Valid() && Refs(t.Contents(), free, n)
    ensures |t.Contents()| <= n + 1
  {
    hide *;
    t.LiveIsNotNil();
    FewKeys(t.Contents(), free, n);
  }

  lemma FewKeys(m: map<Value, Value>, free: seq<int>, n: nat)
    requires Refs(m, free, n) && forall k :: k in m ==> m[k] != Nil
    ensures |m| <= n + 1
  {
    var K := set j | 1 <= j <= n :: Integer(j);
    IntegersCount(n, K);
    forall k | k in m ensures k in K + {Integer(0)} {
      assert InMap(m, k) != Nil;
    }
    TableSizes.Subset(m.Keys, K + {Integer(0)});
  }

  lemma PlayedAllStep(s: RefState, ops: seq<RefOp>, k: nat)
    requires k < |ops|
    ensures PlayedAll(s, ops[..k + 1]) == Played(PlayedAll(s, ops[..k]), ops[k])
    decreases k
  {
    hide Played;
    if k == 0 {
      assert ops[..1] == [ops[0]] && ops[..0] == [];
      assert PlayedAll(s, ops[..1]) == PlayedAll(Played(s, ops[0]), ops[..1][1..]);
      assert ops[..1][1..] == [];
    } else {
      assert ops[..k + 1][1..] == ops[1..][..k] && ops[..k][1..] == ops[1..][..k - 1];
      PlayedAllStep(Played(s, ops[0]), ops[1..], k - 1);
    }
  }

  /** One use of the table.  `live` is the user's record of the references held. */
  method Play(t: Table, op: RefOp, live: map<int, Value>, ghost s: RefState)
    returns (ok: bool, live': map<int, Value>)
    requires Stands(t, s) && live == s.live && (op.DoRef? ==> !op.v.Dead?)
    modifies t
    ensures ok ==> Stands(t, Played(s, op)) && live' == Played(s, op).live
    ensures ok && op.DoRef? && op.v != Nil ==> NextRef(s) !in live
    ensures !ok ==> s.n + 2 >= TableSizes.MAXASIZE
  {
    hide Refs, View, InMap;
    FewEntries(t, s.free, s.n);
    live' := live;
    match op {
      case DoRef(v) =>
        var r;
        ghost var free, n;
        r, free, n := Ref(t, v, s.free, s.n);
        ok := r.Ok?;
        if ok && v != Nil {
          live' := live[r.value := v];
        }
      case DoUnref(ref) =>
        ok := true;
        if ref >= 0 && ref in live {
          var r;
          ghost var free;
          r, free := Unref(t, ref, s.free, s.n);
          ok := r.Ok?;
          live' := live - {ref};
        }
    }
  }

  /** Any sequence of luaL_ref and luaL_unref on a new table keeps the books of RefState; it only stops
      early, after k operations, when the table cannot grow. */
  method Session(hash: Value -> nat, ops: seq<RefOp>) returns (t: Table, k: nat)
    requires forall i :: 0 <= i < |ops| && ops[i].DoRef? ==> !ops[i].v.Dead?
    ensures k <= |ops|
    ensures k == |ops| ==> Stands(t, PlayedAll(RefState([], 0, map[]), ops))
    ensures k < |ops| ==> PlayedAll(RefState([], 0, map[]), ops[..k]).n + 2 >= TableSizes.MAXASIZE
  {
    hide Refs, View, Played;
    t := new Table(hash);
    ghost var init := RefState([], 0, map[]);
    Empty(t.Contents());
    var live: map<int, Value> := map[];
    k := 0;
    while k < |ops|
      invariant k <= |ops| && fresh(t)
      invariant Stands(t, PlayedAll(init, ops[..k])) && live == PlayedAll(init, ops[..k]).live
    {
      ghost var s := PlayedAll(init, ops[..k]);
      PlayedAllStep(init, ops, k);
      var ok;
      ok, live := Play(t, ops[k], live, s);
      if !ok {
        return;
      }
      k := k + 1;
    }
    assert ops[..k] == ops;
  }
}
