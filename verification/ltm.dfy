/** The metamethod-absence cache: luaT_gettm and fasttm (ltm.c, ltm.h) under luaV_gettable and
    luaV_settable (lvm.c). */
module LuaMeta {
  import opened LuaObject
  import opened LuaTable
  import TableSizes

  const TM_INDEX: nat := 0
  const TM_NEWINDEX: nat := 1
  const TM_EQ: nat := 4  // the last event with a bit in `flags`
  const MAXTAGLOOP: nat := 100

  function Bit(e: nat): bv8 {
    match e case 0 => 1 case 1 => 2 case 2 => 4 case 3 => 8 case 4 => 16 case _ => 0
  }

  /** The cache claims event e absent. */
  predicate Claims(flags: bv8, e: nat) {
    flags & Bit(e) != 0
  }

  lemma AddClaim(flags: bv8, e: nat, d: nat)
    requires e <= TM_EQ && d <= TM_EQ
    ensures Claims(flags | Bit(e), d) <==> d == e || Claims(flags, d)
  {
  }

  lemma NoClaims(e: nat)
    ensures !Claims(0, e)
  {
  }

  /** A claim is only made of an event the table has no field for. */
  ghost predicate ClaimOk(flags: bv8, m: map<Value, Value>, tmname: seq<Value>, e: nat) {
    e <= TM_EQ < |tmname| && Claims(flags, e) ==> InMap(m, tmname[e]) == Nil
  }

  ghost predicate CacheOk(flags: bv8, m: map<Value, Value>, tmname: seq<Value>) {
    forall e :: ClaimOk(flags, m, tmname, e)
  }

  /** The tables of a state as plain maps, by the id their values carry. */
  type Heap = map<nat, map<Value, Value>>

  /** Some table has so many entries that it may not be able to grow. */
  ghost predicate Crowded(h: Heap) {
    exists i :: i in h && |h[i]| >= TableSizes.MAXASIZE
  }

  /** How an access ends: at a table, at a metamethod to call, or in an error. */
  datatype Outcome = Reached(id: nat) | Call(f: Value, self: Value) | KeyIsNil | TypeError | TagLoop

  datatype Kind = ATable | AFunction | AUserdata | AThread

  /** Where metatables hang: on every table and userdata, and on the other types. */
  datatype Metas = Metas(kinds: map<nat, Kind>, own: map<nat, nat>, basic: map<nat, nat>) {

    function KindOf(o: nat): Kind {
      if o in kinds then kinds[o] else AThread
    }

    /** The type tag of a value (lua.h). */
    function TypeOf(v: Value): nat {
      match v
      case Nil => 0
      case Boolean(_) => 1
      case Light(_) => 2
      case Integer(_) => 3
      case Float(_) => 3
      case Str(_) => 4
      case Object(o) =>
        (match KindOf(o) case ATable => 5 case AFunction => 6 case AUserdata => 7 case AThread => 8)
      case Dead(_) => 11
    }

    predicate HasOwn(v: Value) {
      v.Object? && (KindOf(v.o) == ATable || KindOf(v.o) == AUserdata)
    }

    predicate IsFunction(v: Value) {
      v.Object? && KindOf(v.o) == AFunction
    }

    function Of(v: Value): Option<nat> {
      if HasOwn(v) then (if v.o in own then Some(own[v.o]) else None)
      else if TypeOf(v) in basic then Some(basic[TypeOf(v)]) else None
    }

    /** The metatable of v, and of all values that share it, set to mt or taken off. */
    function With(v: Value, mt: Option<nat>): Metas {
      if HasOwn(v) then
        this.(own := if mt.Some? then own[v.o := mt.value] else own - {v.o})
      else
        this.(basic := if mt.Some? then basic[TypeOf(v) := mt.value] else basic - {TypeOf(v)})
    }

    lemma WithMeaning(v: Value, mt: Option<nat>, w: Value)
      ensures With(v, mt).Of(w) == if Shares(v, w) then mt else Of(w)
    {
      hide TypeOf;
      SameKinds(v, mt, w);
    }

    lemma SameKinds(v: Value, mt: Option<nat>, w: Value)
      ensures With(v, mt).TypeOf(w) == TypeOf(w)
    {
    }

    /** Tables and userdata share their metatable with nobody; all other values of one type share theirs, whatever the
        two kinds of numbers. */
    lemma SharesMeaning(v: Value, w: Value)
      requires !v.Dead? && !w.Dead?
      ensures Shares(v, w) <==>
              match (v, w)
              case (Object(i), Object(j)) => i == j || (KindOf(i) == KindOf(j) && (KindOf(i) == AFunction || KindOf(i) == AThread))
              case (Nil, Nil) => true
              case (Boolean(_), Boolean(_)) => true
              case (Light(_), Light(_)) => true
              case (Str(_), Str(_)) => true
              case _ => (v.Integer? || v.Float?) && (w.Integer? || w.Float?)
    {
    }

    /** A metatable set for v is the metatable of w. */
    predicate Shares(v: Value, w: Value) {
      if HasOwn(v) then w == v else !HasOwn(w) && TypeOf(w) == TypeOf(v)
    }
  }

  /** luaT_gettmbyobj: the metamethod looked up the plain way, with no cache. */
  ghost function PlainTM(h: Heap, ms: Metas, v: Value, name: Value): Value {
    if ms.Of(v).None? || ms.Of(v).value !in h then Nil else InMap(h[ms.Of(v).value], name)
  }

  datatype Option<T> = None | Some(value: T)

  datatype Turn = Ends(o: Outcome) | Goes(tm: Value)

  /** One round of an access: it ends, or goes on with the metamethod. */
  ghost function TurnOf(h: Heap, ms: Metas, name: Value, set_: bool, v: Value, key: Value): Turn {
    var tm := PlainTM(h, ms, v, name);
    if v.Object? && v.o in h && set_ && key == Nil then Ends(KeyIsNil)
    else if v.Object? && v.o in h && (InMap(h[v.o], key) != Nil || tm == Nil) then Ends(Reached(v.o))
    else if tm == Nil then Ends(TypeError)
    else if ms.IsFunction(tm) then Ends(Call(tm, v))
    else Goes(tm)
  }

  /** Section 2.8 of the Lua 5.1 Reference Manual, `index` and `newindex`, on plain maps: `n` more rounds are
      allowed. */
  ghost function Resolve(h: Heap, ms: Metas, name: Value, set_: bool, v: Value, key: Value, n: nat): Outcome
    decreases n
  {
    if n == 0 then TagLoop
    else
      match TurnOf(h, ms, name, set_, v, key)
      case Ends(o) => o
      case Goes(tm) => Resolve(h, ms, name, set_, tm, key, n - 1)
  }

  /** The metatable of v names tm for the event. */
  ghost predicate HandledBy(h: Heap, ms: Metas, v: Value, name: Value, tm: Value) {
    tm != Nil && exists i: nat :: ms.Of(v) == Some(i) && i in h && name in h[i] && h[i][name] == tm
  }

  /** A table with a value for the key. */
  ghost predicate Present(h: Heap, v: Value, key: Value) {
    v.Object? && v.o in h && key in h[v.o] && h[v.o][key] != Nil
  }

  /** The access goes on from v to w: v names w, which is no function, for the event, and is no table that has a value
      for the key already. */
  ghost predicate PassesOn(h: Heap, ms: Metas, name: Value, set_: bool, v: Value, key: Value, w: Value) {
    && HandledBy(h, ms, v, name, w) && !(w.Object? && w.o in ms.kinds && ms.kinds[w.o] == AFunction) && !Present(h, v, key)
    && !(set_ && key == Nil && v.Object? && v.o in h)
  }

  /** The access ends at v. */
  ghost predicate EndsAt(h: Heap, ms: Metas, name: Value, set_: bool, v: Value, key: Value, o: Outcome) {
    var isTable := v.Object? && v.o in h;
    var nilKey := isTable && set_ && key == Nil;
    match o
    case KeyIsNil => nilKey
    case Reached(i) => !nilKey && v == Object(i) && i in h && (Present(h, v, key) || forall tm :: !HandledBy(h, ms, v, name, tm))
    case TypeError => !isTable && forall tm :: !HandledBy(h, ms, v, name, tm)
    case Call(f, self) =>
      && !nilKey && self == v && HandledBy(h, ms, v, name, f) && !Present(h, v, key)
      && f.Object? && f.o in ms.kinds && ms.kinds[f.o] == AFunction
    case TagLoop => false
  }

  ghost predicate PassesAt(h: Heap, ms: Metas, name: Value, set_: bool, key: Value, chain: seq<Value>, i: int) {
    0 <= i < |chain| - 1 ==> PassesOn(h, ms, name, set_, chain[i], key, chain[i + 1])
  }

  /** Values from v on, each passing the access on to the next. */
  ghost predicate Chain(h: Heap, ms: Metas, name: Value, set_: bool, v: Value, key: Value, chain: seq<Value>) {
    chain != [] && chain[0] == v && forall i :: PassesAt(h, ms, name, set_, key, chain, i)
  }

  lemma NamesOne(h: Heap, ms: Metas, v: Value, name: Value, tm: Value)
    ensures HandledBy(h, ms, v, name, tm) <==> tm != Nil && tm == PlainTM(h, ms, v, name)
  {
    hide Metas.Of;
  }

  lemma NamesNone(h: Heap, ms: Metas, v: Value, name: Value)
    ensures (forall tm :: !HandledBy(h, ms, v, name, tm)) <==> PlainTM(h, ms, v, name) == Nil
  {
    hide PlainTM, HandledBy;
    forall tm ensures HandledBy(h, ms, v, name, tm) <==> tm != Nil && tm == PlainTM(h, ms, v, name) {
      NamesOne(h, ms, v, name, tm);
    }
    assert HandledBy(h, ms, v, name, PlainTM(h, ms, v, name)) <==> PlainTM(h, ms, v, name) != Nil;
  }

  lemma IsPresent(h: Heap, v: Value, key: Value)
    ensures Present(h, v, key) <==> v.Object? && v.o in h && InMap(h[v.o], key) != Nil
  {
  }

  lemma TurnEnds(h: Heap, ms: Metas, name: Value, set_: bool, v: Value, key: Value, o: Outcome)
    ensures EndsAt(h, ms, name, set_, v, key, o) <==> TurnOf(h, ms, name, set_, v, key) == Ends(o)
  {
    hide PlainTM, HandledBy, Present, InMap;
    IsPresent(h, v, key);
    NamesNone(h, ms, v, name);
    if o.Call? { NamesOne(h, ms, v, name, o.f); }
    NamesOne(h, ms, v, name, PlainTM(h, ms, v, name));
  }

  lemma TurnGoes(h: Heap, ms: Metas, name: Value, set_: bool, v: Value, key: Value, w: Value)
    ensures PassesOn(h, ms, name, set_, v, key, w) <==> TurnOf(h, ms, name, set_, v, key) == Goes(w)
  {
    hide PlainTM, HandledBy, Present, InMap;
    IsPresent(h, v, key);
    NamesOne(h, ms, v, name, w);
  }

  lemma ChainOn(h: Heap, ms: Metas, name: Value, set_: bool, v: Value, key: Value, rest: seq<Value>)
    requires rest != [] && PassesOn(h, ms, name, set_, v, key, rest[0]) && Chain(h, ms, name, set_, rest[0], key, rest)
    ensures Chain(h, ms, name, set_, v, key, [v] + rest)
  {
    hide PassesOn;
    forall i ensures PassesAt(h, ms, name, set_, key, [v] + rest, i) {
      assert PassesAt(h, ms, name, set_, key, rest, i - 1);
    }
  }

  lemma ChainBehind(h: Heap, ms: Metas, name: Value, set_: bool, v: Value, key: Value, chain: seq<Value>)
    requires Chain(h, ms, name, set_, v, key, chain) && |chain| > 1
    ensures PassesOn(h, ms, name, set_, v, key, chain[1]) && Chain(h, ms, name, set_, chain[1], key, chain[1..])
  {
    hide PassesOn;
    assert PassesAt(h, ms, name, set_, key, chain, 0);
    forall i ensures PassesAt(h, ms, name, set_, key, chain[1..], i) {
      assert PassesAt(h, ms, name, set_, key, chain, i + 1);
    }
  }

  /** A chain that ends an access, within n rounds or because they do not suffice. */
  ghost predicate Leads(h: Heap, ms: Metas, name: Value, set_: bool, v: Value, key: Value, n: nat, chain: seq<Value>, o: Outcome) {
    Chain(h, ms, name, set_, v, key, chain) &&
    if o == TagLoop then |chain| == n + 1 else |chain| <= n && EndsAt(h, ms, name, set_, chain[|chain| - 1], key, o)
  }

  /** The chain an access follows. */
  lemma {:induction false} ChainOf(h: Heap, ms: Metas, name: Value, set_: bool, v: Value, key: Value, n: nat) returns (chain: seq<Value>)
    ensures Leads(h, ms, name, set_, v, key, n, chain, Resolve(h, ms, name, set_, v, key, n))
    decreases n
  {
    hide TurnOf, PassesOn, EndsAt, Chain, Leads;
    chain := [v];
    if n == 0 {
      LeadsNowhere(h, ms, name, set_, v, key);
      return;
    }
    match TurnOf(h, ms, name, set_, v, key)
    case Ends(o) =>
      TurnEnds(h, ms, name, set_, v, key, o);
      LeadsAtOnce(h, ms, name, set_, v, key, n, o);
    case Goes(w) =>
      TurnGoes(h, ms, name, set_, v, key, w);
      var rest := ChainOf(h, ms, name, set_, w, key, n - 1);
      LeadsFrom(h, ms, name, set_, v, key, n, w, rest, Resolve(h, ms, name, set_, w, key, n - 1));
      chain := [v] + rest;
  }

  lemma LeadsNowhere(h: Heap, ms: Metas, name: Value, set_: bool, v: Value, key: Value)
    ensures Leads(h, ms, name, set_, v, key, 0, [v], TagLoop)
  {
    hide Chain;
    ChainOfOne(h, ms, name, set_, v, key);
  }

  lemma LeadsAtOnce(h: Heap, ms: Metas, name: Value, set_: bool, v: Value, key: Value, n: nat, o: Outcome)
    requires n > 0 && EndsAt(h, ms, name, set_, v, key, o)
    ensures Leads(h, ms, name, set_, v, key, n, [v], o)
  {
    hide Chain, EndsAt;
    ChainOfOne(h, ms, name, set_, v, key);
    NoLoopHere(h, ms, name, set_, v, key);
  }

  lemma LeadsFrom(h: Heap, ms: Metas, name: Value, set_: bool, v: Value, key: Value, n: nat, w: Value, rest: seq<Value>, o: Outcome)
    requires n > 0 && PassesOn(h, ms, name, set_, v, key, w) && Leads(h, ms, name, set_, w, key, n - 1, rest, o)
    ensures Leads(h, ms, name, set_, v, key, n, [v] + rest, o)
  {
    hide Chain, EndsAt, PassesOn;
    ChainStarts(h, ms, name, set_, w, key, rest);
    ChainOn(h, ms, name, set_, v, key, rest);
  }

  lemma ChainOfOne(h: Heap, ms: Metas, name: Value, set_: bool, v: Value, key: Value)
    ensures Chain(h, ms, name, set_, v, key, [v])
  {
    hide PassesOn;
  }

  lemma NoLoopHere(h: Heap, ms: Metas, name: Value, set_: bool, v: Value, key: Value)
    ensures !EndsAt(h, ms, name, set_, v, key, TagLoop)
  {
  }

  lemma {:induction false} FollowChain(h: Heap, ms: Metas, name: Value, set_: bool, v: Value, key: Value, n: nat, chain: seq<Value>, o: Outcome)
    requires Leads(h, ms, name, set_, v, key, n, chain, o)
    ensures Resolve(h, ms, name, set_, v, key, n) == o
    decreases n
  {
    hide TurnOf, PassesOn, EndsAt, Chain, Leads;
    if |chain| > 1 {
      LeadsOn(h, ms, name, set_, v, key, n, chain, o);
      TurnGoes(h, ms, name, set_, v, key, chain[1]);
      FollowChain(h, ms, name, set_, chain[1], key, n - 1, chain[1..], o);
    } else {
      LeadsHere(h, ms, name, set_, v, key, n, chain, o);
      TurnEnds(h, ms, name, set_, v, key, o);
    }
  }

  lemma LeadsOn(h: Heap, ms: Metas, name: Value, set_: bool, v: Value, key: Value, n: nat, chain: seq<Value>, o: Outcome)
    requires Leads(h, ms, name, set_, v, key, n, chain, o) && |chain| > 1
    ensures n > 0 && PassesOn(h, ms, name, set_, v, key, chain[1]) && Leads(h, ms, name, set_, chain[1], key, n - 1, chain[1..], o)
  {
    hide PassesOn, EndsAt, Chain;
    ChainBehind(h, ms, name, set_, v, key, chain);
  }

  lemma LeadsHere(h: Heap, ms: Metas, name: Value, set_: bool, v: Value, key: Value, n: nat, chain: seq<Value>, o: Outcome)
    requires Leads(h, ms, name, set_, v, key, n, chain, o) && |chain| <= 1
    ensures if o == TagLoop then n == 0 else n > 0 && EndsAt(h, ms, name, set_, v, key, o)
  {
    hide EndsAt, Chain;
    ChainStarts(h, ms, name, set_, v, key, chain);
  }

  lemma ChainStarts(h: Heap, ms: Metas, name: Value, set_: bool, v: Value, key: Value, chain: seq<Value>)
    requires Chain(h, ms, name, set_, v, key, chain)
    ensures chain != [] && chain[0] == v
  {
    hide PassesAt;
  }

  /** An access ends like this exactly if a chain of at most n values ends so; there is a loop exactly if a chain goes on
      for more than n. */
  lemma ResolveFollows(h: Heap, ms: Metas, name: Value, set_: bool, v: Value, key: Value, n: nat, o: Outcome)
    ensures Resolve(h, ms, name, set_, v, key, n) == o <==> exists chain :: Leads(h, ms, name, set_, v, key, n, chain, o)
  {
    hide Resolve, Leads;
    if Resolve(h, ms, name, set_, v, key, n) == o {
      var chain := ChainOf(h, ms, name, set_, v, key, n);
    }
    forall chain | Leads(h, ms, name, set_, v, key, n, chain, o) ensures Resolve(h, ms, name, set_, v, key, n) == o {
      FollowChain(h, ms, name, set_, v, key, n, chain, o);
    }
  }

  lemma ClaimedAbsent(flags: bv8, m: map<Value, Value>, tmname: seq<Value>, e: nat)
    requires CacheOk(flags, m, tmname) && e <= TM_EQ < |tmname| && Claims(flags, e)
    ensures InMap(m, tmname[e]) == Nil
  {
    assert ClaimOk(flags, m, tmname, e);
  }

  /** luaT_gettm: the field itself, its absence noted in the cache. */
  method GetTM(events: Table, e: nat, ghost tmname: seq<Value>, ename: Value) returns (tm: Value)
    requires events.Valid() && e <= TM_EQ < |tmname| && ename == tmname[e] && ename.Str?
    requires CacheOk(events.flags, events.Contents(), tmname)
    modifies events`flags
    ensures events.Valid() && events.Contents() == old(events.Contents())
    ensures CacheOk(events.flags, events.Contents(), tmname)
    ensures tm == InMap(events.Contents(), ename)
    ensures events.flags == if tm == Nil then old(events.flags) | Bit(e) else old(events.flags)
  {
    hide *;
    tm := events.RawGet(ename);
    ReadThrough(events.Contents(), ename);
    if tm == Nil {
      ghost var flags := events.flags;
      SetFlags(events, events.flags | Bit(e));
      MoreClaims(flags, events.Contents(), tmname, e);
    }
  }

  lemma ReadThrough(m: map<Value, Value>, key: Value)
    ensures InMap(m, key) == if key in m then m[key] else Nil
  {
  }

  lemma MoreClaims(flags: bv8, m: map<Value, Value>, tmname: seq<Value>, e: nat)
    requires CacheOk(flags, m, tmname) && e <= TM_EQ < |tmname| && InMap(m, tmname[e]) == Nil
    ensures CacheOk(flags | Bit(e), m, tmname)
  {
    var after := flags | Bit(e);
    forall d: nat ensures ClaimOk(after, m, tmname, d) {
      assert ClaimOk(flags, m, tmname, d);
      if d <= TM_EQ {
        AddClaim(flags, e, d);
      }
    }
  }

  /** A table's fields do not depend on its cache. */
  method SetFlags(t: Table, flags: bv8)
    requires t.Valid()
    modifies t`flags
    ensures t.Valid() && t.Contents() == old(t.Contents()) && t.flags == flags
  {
    hide WellFormed, UsedFrom, OutsideArray, LookupIn, LiveArrayKeys, LiveNodeKeys;
    ghost var m := t.Contents();
    t.flags := flags;
    assert t.Contents() == m;
  }

  /** The table is stored where it was; only its cache may have changed. */
  ghost predicate SameParts(arr: seq<Value>, node: seq<Node>, t: Table)
    reads t
  {
    t.arr == arr && t.node == node
  }

  lemma SameMap(m: map<Value, Value>, m': map<Value, Value>)
    requires (forall k :: k in m ==> m[k] != Nil) && (forall k :: k in m' ==> m'[k] != Nil)
    requires forall k :: InMap(m', k) == InMap(m, k)
    ensures m' == m
  {
    forall k ensures k in m' <==> k in m {
      assert InMap(m', k) == InMap(m, k);
    }
    forall k | k in m' ensures m'[k] == m[k] {
      assert InMap(m', k) == InMap(m, k);
    }
  }

  /** With no claims there are no false ones. */
  lemma Cleared(m: map<Value, Value>, tmname: seq<Value>)
    ensures CacheOk(0, m, tmname)
  {
    forall e: nat ensures ClaimOk(0, m, tmname, e) {
      NoClaims(e);
    }
  }

  /** Why luaV_settable clears the cache a second time: when the table is its own metatable, looking up
      `__newindex` between luaH_set and the store notes it absent, and storing just that field would then
      make the claim false. */
  lemma SecondClearNeeded(m: map<Value, Value>, tmname: seq<Value>, val: Value)
    requires |tmname| > TM_EQ && InMap(m, tmname[TM_NEWINDEX]) == Nil && val != Nil
    ensures CacheOk(0 | Bit(TM_NEWINDEX), m, tmname)
    ensures !CacheOk(0 | Bit(TM_NEWINDEX), Put(m, tmname[TM_NEWINDEX], val), tmname)
  {
    Cleared(m, tmname);
    MoreClaims(0, m, tmname, TM_NEWINDEX);
    AddClaim(0, TM_NEWINDEX, TM_NEWINDEX);
    assert !ClaimOk(0 | Bit(TM_NEWINDEX), Put(m, tmname[TM_NEWINDEX], val), tmname, TM_NEWINDEX);
  }

  lemma EmptyTable(flags: bv8, m: map<Value, Value>, tmname: seq<Value>)
    requires m == map[]
    ensures CacheOk(flags, m, tmname)
  {
    forall e: nat ensures ClaimOk(flags, m, tmname, e) {
    }
  }

  lemma ContentsSize(t: Table)
    ensures |t.Contents()| == |t.LiveKeys()|
  {
    assert t.Contents().Keys == t.LiveKeys();
  }

  /** luaH_set: the slot to write to; the fields are those from before. */
  method SlotToWrite(t: Table, key: Value) returns (s: Result<Slot>)
    requires t.Valid() && !key.Dead?
    modifies t
    ensures s == Err(IndexIsNil) <==> key == Nil
    ensures s.Ok? || key == Nil ==> t.Valid() && t.Contents() == old(t.Contents()) && t.flags == 0
    ensures s.Ok? ==> t.SlotFor(s.value, key)
    ensures s.Err? && key != Nil ==> s.error == Overflow && |old(t.Contents())| >= TableSizes.MAXASIZE
  {
    ContentsSize(t);
    hide Table.Valid, Table.Contents, Table.SlotFor, Table.Get, Table.Settled;
    ghost var m := t.Contents();
    t.ContentsAgree();
    t.LiveIsNotNil();
    s := t.LuaHSet(key);
    if s.Ok? {
      t.ContentsAgree();
      t.LiveIsNotNil();
      SameMap(m, t.Contents());
    }
  }

  method ReadSlot(t: Table, s: Slot, key: Value) returns (v: Value)
    requires t.Valid() && Insertable(key) && t.SlotFor(s, key)
    ensures v == InMap(t.Contents(), key)
  {
    v := t.Read(s, key);
    t.ContentsAgree();
  }

  /** The store through the slot. */
  method Store(t: Table, s: Slot, key: Value, val: Value)
    requires t.Valid() && Insertable(key) && t.SlotFor(s, key)
    modifies t`arr, t`node
    ensures t.Valid() && t.Contents() == Put(old(t.Contents()), key, val)
  {
    hide Table.Valid, Table.Contents, Table.SlotFor, Table.Get;
    ghost var m := t.Contents();
    t.ContentsAgree();
    t.LiveIsNotNil();
    t.Write(s, val, key);
    t.ContentsAgree();
    t.LiveIsNotNil();
    PutAgrees(m, t.Contents(), key, val);
  }

  lemma Round(h: Heap, ms: Metas, name: Value, set_: bool, v: Value, key: Value, n: nat)
    requires n > 0
    ensures Resolve(h, ms, name, set_, v, key, n) ==
            match TurnOf(h, ms, name, set_, v, key)
            case Ends(o) => o
            case Goes(tm) => Resolve(h, ms, name, set_, tm, key, n - 1)
  {
    hide TurnOf;
  }

  function Ended(turn: Turn): Outcome {
    if turn.Ends? then turn.o else TagLoop
  }

  /** The round of an assignment at a table. */
  lemma TurnAt(h: Heap, ms: Metas, name: Value, i: nat, key: Value, tm: Value)
    requires i in h && tm == PlainTM(h, ms, Object(i), name)
    ensures TurnOf(h, ms, name, true, Object(i), key) ==
            if key == Nil then Ends(KeyIsNil)
            else if InMap(h[i], key) != Nil || tm == Nil then Ends(Reached(i))
            else if ms.IsFunction(tm) then Ends(Call(tm, Object(i)))
            else Goes(tm)
  {
    hide PlainTM, InMap, Metas.IsFunction;
  }

  lemma AssignedIs(h: Heap, i: nat, key: Value, val: Value)
    requires i in h
    ensures Assigned(h, Ended(Ends(Reached(i))), key, val) == h[i := Put(h[i], key, val)]
    ensures forall turn: Turn :: !(turn.Ends? && turn.o.Reached?) ==> Assigned(h, Ended(turn), key, val) == h
  {
    hide Put;
  }

  lemma MayInsert(key: Value)
    requires key != Nil && !key.Dead?
    ensures Insertable(key)
  {
  }

  lemma EndedIs(turn: Turn)
    ensures Ended(turn) == if turn.Ends? then turn.o else TagLoop
  {
  }

  /** The tables after an assignment that ended like this. */
  ghost function Assigned(h: Heap, o: Outcome, key: Value, val: Value): Heap {
    if o.Reached? && o.id in h then h[o.id := Put(h[o.id], key, val)] else h
  }

  lemma NotAssigned(h: Heap, o: Outcome, key: Value, val: Value)
    ensures !o.Reached? ==> Assigned(h, o, key, val) == h
  {
  }

  lemma NoRounds(h: Heap, ms: Metas, name: Value, set_: bool,
                 v: Value, key: Value)
    ensures Resolve(h, ms, name, set_, v, key, 0) == TagLoop
  {
  }

  /** Different values are different tables, each an object of the state. */
  ghost predicate OwnedIn(tables: map<nat, Table>, ids: map<Table, nat>) {
    forall i :: i in tables ==> tables[i] in ids && ids[tables[i]] == i
  }

  ghost predicate KindedIn(tables: map<nat, Table>, kinds: map<nat, Kind>) {
    forall i :: i in tables ==> i in kinds && kinds[i] == ATable
  }

  ghost predicate MetasIn(tables: map<nat, Table>, own: map<nat, nat>, basic: map<nat, nat>) {
    && (forall o :: o in own ==> own[o] in tables)
    && (forall k :: k in basic ==> basic[k] in tables)
  }

  lemma OneMore(tables: map<nat, Table>, ids: map<Table, nat>, kinds: map<nat, Kind>, own: map<nat, nat>,
                basic: map<nat, nat>, i: nat, t: Table)
    requires OwnedIn(tables, ids) && KindedIn(tables, kinds) && MetasIn(tables, own, basic)
    requires i !in tables && t !in ids
    ensures OwnedIn(tables[i := t], ids[t := i]) && KindedIn(tables[i := t], kinds[i := ATable])
    ensures MetasIn(tables[i := t], own - {i}, basic)
    ensures Metas(kinds[i := ATable], own - {i}, basic).Of(Object(i)).None?
  {
  }

  lemma PlainIs(h: Heap, ms: Metas, v: Value, name: Value)
    ensures PlainTM(h, ms, v, name) == if ms.Of(v).None? || ms.Of(v).value !in h then Nil else InMap(h[ms.Of(v).value], name)
  {
  }

  class State {
    const tmname: seq<Value>          // G(L)->tmname
    var tables: map<nat, Table>       // which values are tables
    ghost var ids: map<Table, nat>    // and back from the objects to the values
    var kinds: map<nat, Kind>         // what objects are, by their ids
    var own: map<nat, nat>            // metatables of tables and userdata
    var basic: map<nat, nat>          // G(L)->mt, the metatables of the other types

    function Metatables(): Metas
      reads `kinds, `own, `basic
    {
      Metas(kinds, own, basic)
    }

    ghost predicate TableOk(i: nat)
      reads `tables, `ids, ids.Keys
    {
      i in tables ==> tables[i] in ids.Keys && tables[i].Valid() && CacheOk(tables[i].flags, tables[i].Contents(), tmname)
    }

    ghost predicate AllOk()
      reads `tables, `ids, ids.Keys
    {
      forall i :: TableOk(i)
    }

    predicate Named() {
      |tmname| > TM_EQ && forall e :: 0 <= e <= TM_EQ ==> tmname[e].Str?
    }

    ghost predicate Owned()
      reads `tables, `ids
    {
      OwnedIn(tables, ids)
    }

    ghost predicate Kinded()
      reads `tables, `kinds
    {
      KindedIn(tables, kinds)
    }

    ghost predicate MetasAreTables()
      reads `tables, `own, `basic
    {
      MetasIn(tables, own, basic)
    }

    /** Every table is in order and no cache makes a false claim. */
    ghost predicate Valid()
      reads this, ids.Keys
    {
      Named() && Owned() && Kinded() && MetasAreTables() && AllOk()
    }

    lemma Known()
      requires Valid()
      ensures Owned() && TM_INDEX < |tmname| && TM_NEWINDEX < |tmname| && TM_EQ < |tmname|
    {
    }

    lemma Mapped(i: nat)
      requires Valid() && i in tables
      ensures i in View() && View()[i] == tables[i].Contents() && TableOk(i)
    {
      hide Table.Valid, Table.Contents, CacheOk;
    }

    constructor (names: seq<Value>)
      requires |names| > TM_EQ && forall e :: 0 <= e <= TM_EQ ==> names[e].Str?
      ensures Valid() && View() == map[] && tmname == names
    {
      tmname, tables, kinds, own, basic := names, map[], map[], map[], map[];
      ids := map[];
    }

    /** luaH_new: a table starts with every event claimed absent, which is true of it. */
    method NewTable(i: nat, hash: Value -> nat)
      requires Valid() && i !in tables && i !in kinds
      modifies `tables, `ids, `kinds, `own
      ensures Valid() && View() == old(View())[i := map[]] && Metatables().Of(Object(i)).None?
    {
      hide Table.Valid, Table.Contents, CacheOk, Metas.TypeOf, LookupIn, AllOk, View;
      var t := new Table(hash);
      EmptyTable(t.flags, t.Contents(), tmname);
      Register(i, t);
    }

    method Register(i: nat, t: Table)
      requires Valid() && i !in tables && t !in ids && t.Valid()
      requires CacheOk(t.flags, t.Contents(), tmname)
      modifies `tables, `ids, `kinds, `own
      ensures Valid() && View() == old(View())[i := t.Contents()] && Metatables().Of(Object(i)).None?
    {
      hide *;
      Parts();
      ghost var h := View();
      OneMore(tables, ids, kinds, own, basic, i, t);
      ViewAt(h);
      tables, ids, kinds, own := tables[i := t], ids[t := i], kinds[i := ATable], own - {i};
      forall j: nat | j in tables
        ensures tables[j] in ids && tables[j].Valid() && CacheOk(tables[j].flags, tables[j].Contents(), tmname)
        ensures h[i := t.Contents()][j] == tables[j].Contents()
      {
      }
      Whole(h[i := t.Contents()]);
    }

    /** What Valid says, piece by piece. */
    lemma Parts()
      requires Valid()
      ensures Named() && Owned() && OwnedIn(tables, ids) && KindedIn(tables, kinds) && MetasIn(tables, own, basic)
      ensures forall j :: j in tables ==>
                tables[j] in ids && tables[j].Valid() && CacheOk(tables[j].flags, tables[j].Contents(), tmname)
    {
      hide Table.Valid, Table.Contents, CacheOk, OwnedIn, KindedIn, MetasIn;
      forall j | j in tables
        ensures tables[j] in ids && tables[j].Valid() && CacheOk(tables[j].flags, tables[j].Contents(), tmname)
      {
        assert TableOk(j);
      }
    }

    lemma ViewAt(h: Heap)
      requires Owned() && h == View()
      ensures h.Keys == tables.Keys && forall j :: j in tables ==> h[j] == tables[j].Contents()
    {
      hide Table.Contents;
    }

    /** And put together again. */
    lemma Whole(h: Heap)
      requires Named() && OwnedIn(tables, ids) && KindedIn(tables, kinds) && MetasIn(tables, own, basic)
      requires forall j :: j in tables ==>
                 tables[j] in ids && tables[j].Valid() && CacheOk(tables[j].flags, tables[j].Contents(), tmname)
      requires h.Keys == tables.Keys && forall j :: j in tables ==> h[j] == tables[j].Contents()
      ensures Valid() && View() == h && Metatables() == Metas(kinds, own, basic)
    {
      hide Table.Valid, Table.Contents, CacheOk, OwnedIn, KindedIn, MetasIn;
    }

    ghost function View(): Heap
      requires Owned()
      reads `tables, `ids, ids.Keys
    {
      map i | i in tables :: tables[i].Contents()
    }

    /** fasttm: the cache consulted first; the answer is the one the plain lookup gives. */
    method FastTM(v: Value, e: nat) returns (tm: Value)
      requires Valid() && e <= TM_EQ
      modifies ids.Keys
      ensures Valid() && View() == old(View())
      ensures tm == PlainTM(View(), Metatables(), v, tmname[e])
      ensures forall i: nat :: i in tables ==> SameParts(old(tables[i].arr), old(tables[i].node), tables[i])
    {
      hide Table.Valid, Table.Contents, CacheOk, Metas.Of, LookupIn, InMap, OwnedIn, KindedIn, MetasIn, AllOk, View, Claims;
      Parts();
      ghost var h := View();
      ViewAt(h);
      MetatableOf(v);
      PlainIs(h, Metatables(), v, tmname[e]);
      if Metatables().Of(v).None? {
        return Nil;
      }
      var i := Metatables().Of(v).value;
      var et := tables[i];
      if Claims(et.flags, e) {
        ClaimedAbsent(et.flags, et.Contents(), tmname, e);
        return Nil;
      }
      tm := GetTM(et, e, tmname, tmname[e]);
      Whole(h);
    }

    lemma MetatableOf(v: Value)
      requires MetasIn(tables, own, basic)
      ensures Metatables().Of(v).Some? ==> Metatables().Of(v).value in tables
    {
    }

    /** One round of luaV_gettable. */
    method GetTurn(t: Value, key: Value) returns (turn: Turn, val: Value)
      requires Valid() && !key.Dead?
      modifies ids.Keys
      ensures Valid() && View() == old(View())
      ensures turn == TurnOf(View(), Metatables(), tmname[TM_INDEX], false, t, key)
      ensures turn.Ends? && turn.o.Reached? ==> turn.o.id in View() && val == InMap(View()[turn.o.id], key)
    {
      hide Table.Valid, Table.Contents, CacheOk, PlainTM, InMap, Metas.IsFunction, Metas.Of, Metas.TypeOf, Metas.HasOwn, Metas.With;
      val := Nil;
      var tm: Value;
      if t.Object? && t.o in tables {
        assert TableOk(t.o);
        val := tables[t.o].RawGet(key);
        ReadThrough(View()[t.o], key);
        if val != Nil {
          return Ends(Reached(t.o)), val;
        }
        tm := FastTM(t, TM_INDEX);
        if tm == Nil {
          return Ends(Reached(t.o)), val;
        }
      } else {
        tm := GetTMByObj(t, TM_INDEX);
        if tm == Nil {
          return Ends(TypeError), val;
        }
      }
      turn := if Metatables().IsFunction(tm) then Ends(Call(tm, t)) else Goes(tm);
    }

    /** luaV_gettable: with the cache in between, the access ends where the plain rules say. */
    method GetTable(v: Value, key: Value) returns (r: Outcome, val: Value)
      requires Valid() && !key.Dead?
      modifies ids.Keys
      ensures Valid() && View() == old(View())
      ensures r == Resolve(View(), Metatables(), tmname[TM_INDEX], false, v, key, MAXTAGLOOP)
      ensures r.Reached? ==> r.id in View() && val == InMap(View()[r.id], key)
    {
      hide *;
      Known();
      val := Nil;
      ghost var h := View();
      var t := v;
      var loop := 0;
      while loop < MAXTAGLOOP
        invariant loop <= MAXTAGLOOP && Valid() && View() == h
        invariant Resolve(h, Metatables(), tmname[TM_INDEX], false, t, key, MAXTAGLOOP - loop)
               == Resolve(h, Metatables(), tmname[TM_INDEX], false, v, key, MAXTAGLOOP)
      {
        Round(h, Metatables(), tmname[TM_INDEX], false, t, key, MAXTAGLOOP - loop);
        var turn;
        turn, val := GetTurn(t, key);
        if turn.Ends? {
          return turn.o, val;
        }
        t := turn.tm;
        loop := loop + 1;
      }
      NoRounds(h, Metatables(), tmname[TM_INDEX], false, t, key);
      r := TagLoop;
    }

    /** luaT_gettmbyobj */
    method GetTMByObj(v: Value, e: nat) returns (tm: Value)
      requires Valid() && e <= TM_EQ
      ensures tm == PlainTM(View(), Metatables(), v, tmname[e])
    {
      hide Table.Valid, Table.Contents, CacheOk, Metas.TypeOf, LookupIn;
      if Metatables().Of(v).None? {
        return Nil;
      }
      assert TableOk(Metatables().Of(v).value);
      tm := tables[Metatables().Of(v).value].RawGet(tmname[e]);
    }

    /** fasttm while a slot is held: it stays the slot of its key. */
    method FastTMKeeping(i: nat, s: Slot, key: Value) returns (tm: Value)
      requires Valid() && i in tables && tables[i].SlotFor(s, key)
      modifies ids.Keys
      ensures Valid() && View() == old(View()) && tables[i].SlotFor(s, key)
      ensures tm == PlainTM(View(), Metatables(), Object(i), tmname[TM_NEWINDEX])
    {
      hide Table.Valid, Table.Contents, CacheOk, PlainTM, Metas.Of, Metas.TypeOf;
      tm := FastTM(Object(i), TM_NEWINDEX);
    }

    method ReadField(i: nat, s: Slot, key: Value) returns (v: Value)
      requires Valid() && i in tables && Insertable(key) && tables[i].SlotFor(s, key)
      ensures i in View() && v == InMap(View()[i], key)
    {
      hide Table.Valid, Table.Contents, Table.SlotFor, CacheOk;
      assert TableOk(i);
      v := ReadSlot(tables[i], s, key);
    }

    /** The round of luaV_settable at a table: the assignment is done there, unless the field is nil and
        there is a metamethod.  It fails, `ok` being false, only when a table cannot grow. */
    method AssignOr(i: nat, key: Value, val: Value) returns (ok: bool, turn: Turn)
      requires Valid() && i in tables && !key.Dead?
      modifies ids.Keys
      ensures ok ==> Valid() && turn == TurnOf(old(View()), Metatables(), tmname[TM_NEWINDEX], true, Object(i), key)
      ensures ok ==> View() == Assigned(old(View()), Ended(turn), key, val)
      ensures !ok ==> key != Nil && Crowded(old(View()))
    {
      hide *;
      Known();
      Mapped(i);
      ghost var h := View();
      ghost var plain := PlainTM(h, Metatables(), Object(i), tmname[TM_NEWINDEX]);
      TurnAt(h, Metatables(), tmname[TM_NEWINDEX], i, key, plain);
      AssignedIs(h, i, key, val);
      var s := SlotIn(i, key);
      if s.Err? {
        return s.error == IndexIsNil, Ends(KeyIsNil);
      }
      MayInsert(key);
      var oldval := ReadField(i, s.value, key);
      var tm := Nil;
      if oldval == Nil {
        tm := FastTMKeeping(i, s.value, key);
      }
      if oldval != Nil || tm == Nil {
        StoreIn(i, s.value, key, val, true);
        return true, Ends(Reached(i));
      }
      return true, if Metatables().IsFunction(tm) then Ends(Call(tm, Object(i))) else Goes(tm);
    }

    /** One round of luaV_settable. */
    method SetTurn(t: Value, key: Value, val: Value) returns (ok: bool, turn: Turn)
      requires Valid() && !key.Dead?
      modifies ids.Keys
      ensures ok ==> Valid() && turn == TurnOf(old(View()), Metatables(), tmname[TM_NEWINDEX], true, t, key)
      ensures ok ==> View() == Assigned(old(View()), Ended(turn), key, val)
      ensures !ok ==> key != Nil && Crowded(old(View()))
    {
      hide *;
      Known();
      if t.Object? && t.o in tables {
        ok, turn := AssignOr(t.o, key, val);
      } else {
        turn := PlainTurn(t, key);
        NotAssigned(View(), Ended(turn), key, val);
        ok := true;
      }
    }

    /** The round at a value that is not a table. */
    method PlainTurn(t: Value, key: Value) returns (turn: Turn)
      requires Valid() && !(t.Object? && t.o in tables)
      ensures turn == TurnOf(View(), Metatables(), tmname[TM_NEWINDEX], true, t, key) && !Ended(turn).Reached?
    {
      hide Table.Valid, Table.Contents, CacheOk, PlainTM, InMap, Metas.Of, Metas.TypeOf;
      var tm := GetTMByObj(t, TM_NEWINDEX);
      turn := if tm == Nil then Ends(TypeError) else if Metatables().IsFunction(tm) then Ends(Call(tm, t)) else Goes(tm);
    }

    /** luaV_settable: an assignment ends where the plain rules say, changes that one field and no
        other, and leaves every cache truthful, also where a table is its own metatable: the lookup in
        between may then have noted the very event absent that is stored next. */
    method SetTable(v: Value, key: Value, val: Value) returns (ok: bool, r: Outcome)
      requires Valid() && !key.Dead?
      modifies ids.Keys
      ensures ok ==> Valid() && r == Resolve(old(View()), Metatables(), tmname[TM_NEWINDEX], true, v, key, MAXTAGLOOP)
      ensures ok ==> View() == Assigned(old(View()), r, key, val)
      ensures !ok ==> key != Nil && Crowded(old(View()))
    {
      hide *;
      Known();
      ghost var h := View();
      var t := v;
      var loop := 0;
      NotAssigned(h, TagLoop, key, val);
      while loop < MAXTAGLOOP
        invariant loop <= MAXTAGLOOP && Valid() && View() == h
        invariant Resolve(h, Metatables(), tmname[TM_NEWINDEX], true, t, key, MAXTAGLOOP - loop)
               == Resolve(h, Metatables(), tmname[TM_NEWINDEX], true, v, key, MAXTAGLOOP)
      {
        Round(h, Metatables(), tmname[TM_NEWINDEX], true, t, key, MAXTAGLOOP - loop);
        var turn;
        ok, turn := SetTurn(t, key, val);
        if !ok {
          return ok, TagLoop;
        }
        EndedIs(turn);
        if turn.Ends? {
          return ok, turn.o;
        }
        t := turn.tm;
        loop := loop + 1;
      }
      NoRounds(h, Metatables(), tmname[TM_NEWINDEX], true, t, key);
      return true, TagLoop;
    }

    method SlotIn(i: nat, key: Value) returns (s: Result<Slot>)
      requires Valid() && i in tables && !key.Dead?
      modifies ids.Keys
      ensures s == Err(IndexIsNil) <==> key == Nil
      ensures s.Ok? || key == Nil ==> Valid() && View() == old(View())
      ensures s.Ok? ==> tables[i].SlotFor(s.value, key) && tables[i].flags == 0
      ensures s.Err? && key != Nil ==> s.error == Overflow && Crowded(old(View()))
    {
      hide Table.Valid, Table.Contents, Table.SlotFor, CacheOk;
      assert TableOk(i);
      assert i in View() && View()[i] == tables[i].Contents();
      s := SlotToWrite(tables[i], key);
      if s.Ok? || key == Nil {
        Cleared(tables[i].Contents(), tmname);
        forall j: nat ensures TableOk(j) && (j in tables ==> tables[j].Contents() == old(tables[j].Contents())) {
          assert old(TableOk(j));
        }
        assert View() == old(View());
      }
    }

    method StoreIn(i: nat, s: Slot, key: Value, val: Value, clear: bool)
      requires Valid() && i in tables && Insertable(key) && tables[i].SlotFor(s, key)
      requires !clear ==> tables[i].flags == 0
      modifies ids.Keys
      ensures Valid() && View() == old(View())[i := Put(old(View())[i], key, val)]
    {
      hide Table.Valid, Table.Contents, Table.SlotFor, CacheOk, Put;
      assert TableOk(i);
      Store(tables[i], s, key, val);
      if clear {
        SetFlags(tables[i], 0);
      }
      Cleared(tables[i].Contents(), tmname);
      forall j: nat ensures TableOk(j) && (j in tables && j != i ==> tables[j].Contents() == old(tables[j].Contents())) {
        assert old(TableOk(j));
      }
      assert View() == old(View())[i := Put(old(View())[i], key, val)];
    }

    /** lua_rawset */
    method RawSet(i: nat, key: Value, val: Value) returns (r: Result<()>)
      requires Valid() && i in tables && !key.Dead?
      modifies ids.Keys
      ensures r == Err(IndexIsNil) <==> key == Nil
      ensures r == Err(IndexIsNil) ==> Valid() && View() == old(View())
      ensures r.Err? && key != Nil ==> r.error == Overflow && Crowded(old(View()))
      ensures r.Ok? ==> Valid() && View() == old(View())[i := Put(old(View())[i], key, val)]
    {
      var s := SlotIn(i, key);
      if s.Err? {
        return Err(s.error);
      }
      StoreIn(i, s.value, key, val, false);
      r := Ok(());
    }

    /** lua_setmetatable: any table may become anyone's metatable, its own included.  Tables and userdata have
        a metatable each, the values of every other type share one. */
    method SetMetatable(v: Value, mt: Option<nat>)
      requires Valid() && (mt.Some? ==> mt.value in tables)
      modifies `own, `basic
      ensures Valid() && View() == old(View())
      ensures forall w :: Metatables().Of(w) ==
                if old(Metatables()).Shares(v, w) then mt else old(Metatables()).Of(w)
    {
      hide AllOk, View, Metas.TypeOf, Metas.Of;
      ghost var ms := Metatables();
      if Metatables().HasOwn(v) {
        own := if mt.Some? then own[v.o := mt.value] else own - {v.o};
      } else {
        var type_ := Metatables().TypeOf(v);
        basic := if mt.Some? then basic[type_ := mt.value] else basic - {type_};
      }
      assert Metatables() == ms.With(v, mt);
      forall w ensures Metatables().Of(w) == if ms.Shares(v, w) then mt else ms.Of(w) {
        ms.WithMeaning(v, mt, w);
      }
    }
  }
}
