/** Lua tables (ltable.c): an array part and a chained scatter table with Brent's variation. */
module LuaTable {
  import opened LuaObject
  import opened TableSizes

  const INTMAX: int := 0x7FFF_FFFD  // LUA_INT_MAX

  /** A hash node; `next` is the index of the next node of the chain, -1 at the end. */
  datatype Node = Node(key: Value, val: Value, next: int)

  /** What the source passes around as a pointer to a value: the shared nil, an array slot or a node. */
  datatype Slot = NilObject | ArraySlot(i: nat) | NodeSlot(p: nat)

  datatype TableError = IndexIsNil | Overflow | InvalidKeyToNext

  datatype Result<+T> = Ok(value: T) | Err(error: TableError)

  /** Chain coordinates, kept for the proofs only: node p belongs to chain cid[p] and sits at position
      pos[p] of it; chain numbers from `ids` on are unused. */
  datatype Layout = Layout(cid: seq<nat>, pos: seq<real>, ids: nat)

  /** The key itself, with the mark of a dead key taken off. */
  function Base(key: Value): Value {
    if key.Dead? then key.of else key
  }

  function Mod(n: nat, size: nat): (r: nat)
    requires size > 0
    ensures r < size
  {
    n % size
  }

  /** mainposition: strings and booleans are reduced modulo the size, zero goes to node 0 and
      everything else is reduced modulo (size - 1) | 1, which is max(size - 1, 1) for a power of two. */
  function MainPosition(hash: Value -> nat, size: nat, key: Value): (r: nat)
    requires size > 0
    ensures r < size
  {
    match key
    case Str(_) => Mod(hash(key), size)
    case Boolean(_) => Mod(hash(key), size)
    case Integer(n) => if n == 0 then 0 else Mod(hash(key), if size > 1 then size - 1 else 1)
    case _ => Mod(hash(key), if size > 1 then size - 1 else 1)
  }

  // ---------------------------------------------------------------------------
  // The link structure
  // ---------------------------------------------------------------------------

  /** The link of p stays inside its chain and moves to a later position. */
  ghost predicate LinkOk(node: seq<Node>, at: Layout, p: int)
    requires |at.cid| == |at.pos| == |node|
  {
    0 <= p < |node| ==>
      && at.cid[p] < at.ids
      && -1 <= node[p].next < |node|
      && (node[p].next != -1 ==> at.cid[node[p].next] == at.cid[p] && at.pos[p] < at.pos[node[p].next])
  }

  /** If q comes after p in the same chain then the link of p does not skip it. */
  ghost predicate NoSkip(node: seq<Node>, at: Layout, p: int, q: int)
    requires |at.cid| == |at.pos| == |node|
  {
    0 <= p < |node| && 0 <= q < |node| && p != q && at.cid[p] == at.cid[q] ==>
      && at.pos[p] != at.pos[q]
      && (at.pos[p] < at.pos[q] ==> 0 <= node[p].next < |node| && at.pos[node[p].next] <= at.pos[q])
  }

  /** Following `next` visits the rest of a chain in order of position. */
  ghost predicate Links(node: seq<Node>, at: Layout) {
    && |at.cid| == |node| && |at.pos| == |node|
    && (forall p :: LinkOk(node, at, p))
    && (forall p, q :: NoSkip(node, at, p, q))
  }

  /** q is met when the chain is followed from p. */
  ghost predicate Reaches(at: Layout, p: int, q: int)
    requires 0 <= p < |at.cid| == |at.pos| && 0 <= q < |at.cid|
  {
    at.cid[p] == at.cid[q] && at.pos[p] <= at.pos[q]
  }

  ghost function Main(hash: Value -> nat, node: seq<Node>, p: int): (r: int)
    requires 0 <= p < |node|
    ensures 0 <= r < |node|
  {
    MainPosition(hash, |node|, Base(node[p].key))
  }

  /** Where keys sit: a used node is reachable from the main position of its key, and the node there
      holds a key for which it is the main position, too. */
  ghost predicate PlacedOk(hash: Value -> nat, node: seq<Node>, at: Layout, p: int)
    requires |at.cid| == |at.pos| == |node|
  {
    0 <= p < |node| && node[p].key != Nil ==>
      var m := Main(hash, node, p);
      Reaches(at, m, p) && node[m].key != Nil && Main(hash, node, m) == m
  }

  /** An unused node holds no value and is alone in its chain. */
  ghost predicate UnusedOk(node: seq<Node>, at: Layout, p: int)
    requires |at.cid| == |at.pos| == |node|
  {
    0 <= p < |node| && node[p].key == Nil ==>
      && node[p].val == Nil && node[p].next == -1
      && forall q :: 0 <= q < |node| && q != p ==> at.cid[q] != at.cid[p]
  }

  /** A value sits under a proper key, and only collectable keys die. */
  ghost predicate KeyOk(node: seq<Node>, p: int) {
    0 <= p < |node| ==>
      && (node[p].val != Nil ==> node[p].key != Nil && !node[p].key.Dead?)
      && (node[p].key.Dead? ==> Collectable(node[p].key.of))
  }

  /** A key occurs in at most one node; nodes with the dead version of it come later in the chain. */
  ghost predicate DistinctOk(node: seq<Node>, at: Layout, p: int, q: int)
    requires |at.pos| == |node|
  {
    (0 <= p < |node| && 0 <= q < |node| && p != q && node[p].key != Nil && !node[p].key.Dead? &&
     Base(node[q].key) == node[p].key) ==> at.pos[p] < at.pos[q]
  }

  ghost predicate WellFormed(hash: Value -> nat, node: seq<Node>, at: Layout) {
    && |node| > 0
    && Links(node, at)
    && (forall p :: PlacedOk(hash, node, at, p))
    && (forall p :: UnusedOk(node, at, p))
    && (forall p :: KeyOk(node, p))
    && (forall p, q :: DistinctOk(node, at, p, q))
  }

  /** Following links never meets a node twice: each node has at most one predecessor, and positions grow. */
  lemma LinksAcyclicAndInjective(node: seq<Node>, at: Layout, p: int, q: int)
    requires Links(node, at) && 0 <= p < |node| && 0 <= q < |node| && node[p].next != -1
    ensures 0 <= node[p].next < |node| && at.pos[p] < at.pos[node[p].next]
    ensures node[p].next == node[q].next ==> p == q
  {
    assert LinkOk(node, at, p) && LinkOk(node, at, q) && NoSkip(node, at, p, q) && NoSkip(node, at, q, p);
  }

  /** The invariant stated at the top of ltable.c: if a key is not in its main position, then the node it
      sits in is not the main position of any key, and the node at its main position holds a key that
      belongs there. */
  lemma BrentInvariant(hash: Value -> nat, node: seq<Node>, at: Layout, p: int, q: int)
    requires WellFormed(hash, node, at)
    requires 0 <= p < |node| && 0 <= q < |node| && node[p].key != Nil && node[q].key != Nil
    requires Main(hash, node, p) != p
    ensures Main(hash, node, q) != p
    ensures Main(hash, node, Main(hash, node, p)) == Main(hash, node, p)
  {
    assert PlacedOk(hash, node, at, p) && PlacedOk(hash, node, at, q);
  }

  // ---------------------------------------------------------------------------
  // The three ways newkey places a key
  // ---------------------------------------------------------------------------

  ghost predicate Absent(node: seq<Node>, key: Value) {
    forall p :: 0 <= p < |node| ==> node[p].key != key
  }

  ghost predicate Insertable(key: Value) {
    key != Nil && !key.Dead?
  }

  /** The main position holds no value: its node is taken over in place, link included. */
  lemma ReuseNode(hash: Value -> nat, node: seq<Node>, at: Layout, key: Value, mp: nat)
    requires WellFormed(hash, node, at) && Insertable(key) && Absent(node, key)
    requires mp == MainPosition(hash, |node|, key) && node[mp].val == Nil
    ensures WellFormed(hash, node[mp := node[mp].(key := key)], at)
  {
    var node' := node[mp := node[mp].(key := key)];
    assert Main(hash, node', mp) == mp;
    forall p ensures LinkOk(node', at, p) {
      assert LinkOk(node, at, p);
    }
    forall p, q ensures NoSkip(node', at, p, q) {
      assert NoSkip(node, at, p, q);
    }
    forall p ensures PlacedOk(hash, node', at, p) {
      if 0 <= p < |node| && p != mp {
        assert Main(hash, node', p) == Main(hash, node, p);
        assert PlacedOk(hash, node, at, p);
      }
    }
    forall p ensures UnusedOk(node', at, p) && KeyOk(node', p) {
      assert UnusedOk(node, at, p) && KeyOk(node, p);
    }
    forall p, q ensures DistinctOk(node', at, p, q) {
      assert DistinctOk(node, at, p, q);
      if p == mp {
        assert PlacedOk(hash, node, at, q) && NoSkip(node, at, mp, q);
      } else if q == mp && 0 <= p < |node| {
        assert node[p].key != key;
      }
    }
  }

  /** The colliding node is in its own main position: the key goes to a free node n, linked right after it. */
  lemma LinkAfter(hash: Value -> nat, node: seq<Node>, at: Layout, key: Value, mp: nat, n: nat)
      returns (at': Layout)
    requires WellFormed(hash, node, at) && Insertable(key) && Absent(node, key)
    requires mp == MainPosition(hash, |node|, key) && node[mp].val != Nil && Main(hash, node, mp) == mp
    requires n < |node| && node[n].key == Nil
    ensures WellFormed(hash, node[n := Node(key, Nil, node[mp].next)][mp := node[mp].(next := n)], at')
  {
    var node' := node[n := Node(key, Nil, node[mp].next)][mp := node[mp].(next := n)];
    var next := node[mp].next;
    assert LinkOk(node, at, mp) && UnusedOk(node, at, n) && KeyOk(node, mp) && PlacedOk(hash, node, at, mp);
    var pos' := at.pos[n := if next == -1 then at.pos[mp] + 1.0 else (at.pos[mp] + at.pos[next]) / 2.0];
    at' := Layout(at.cid[n := at.cid[mp]], pos', at.ids);
    assert n != next && n != mp;
    assert Main(hash, node', n) == mp;
    LinkAfterLinks(node, at, key, mp, n, at');
    forall p ensures PlacedOk(hash, node', at', p) {
      assert PlacedOk(hash, node, at, p);
    }
    forall p ensures UnusedOk(node', at', p) && KeyOk(node', p) {
      assert UnusedOk(node, at, p) && KeyOk(node, p);
    }
    forall p, q ensures DistinctOk(node', at', p, q) {
      assert DistinctOk(node, at, p, q);
      if p == n {
        assert PlacedOk(hash, node, at, q) && NoSkip(node, at, mp, q) && DistinctOk(node, at, mp, q);
        assert Absent(node, key) && KeyOk(node, q);
      } else if q == n && 0 <= p < |node| {
        assert node[p].key != key;
      }
    }
  }

  lemma LinkAfterLinks(node: seq<Node>, at: Layout, key: Value, mp: nat, n: nat, at': Layout)
    requires Links(node, at) && mp < |node| && n < |node| && n != mp && UnusedOk(node, at, n) && node[n].key == Nil
    requires |at'.pos| == |node| && at'.cid == at.cid[n := at.cid[mp]] && at'.ids == at.ids
    requires var next := node[mp].next;
             -1 <= next < |node| &&
             at'.pos == at.pos[n := if next == -1 then at.pos[mp] + 1.0 else (at.pos[mp] + at.pos[next]) / 2.0]
    ensures Links(node[n := Node(key, Nil, node[mp].next)][mp := node[mp].(next := n)], at')
  {
    var node' := node[n := Node(key, Nil, node[mp].next)][mp := node[mp].(next := n)];
    assert LinkOk(node, at, mp);
    forall p ensures LinkOk(node', at', p) {
      assert LinkOk(node, at, p);
    }
    forall p, q ensures NoSkip(node', at', p, q) {
      assert LinkOk(node, at, p);
      assert forall r :: 0 <= r < |node| && r != n ==> at.cid[r] != at.cid[n];
      if p == n {
        assert NoSkip(node, at, mp, q);
      } else if q == n {
        assert NoSkip(node, at, p, mp) && NoSkip(node, at, mp, p);
      } else {
        assert NoSkip(node, at, p, q);
      }
    }
  }

  /** The colliding node is a guest: it moves to the free node n, its predecessor `prev` is linked to n,
      and the key takes the main position with an empty link. */
  lemma MoveGuest(hash: Value -> nat, node: seq<Node>, at: Layout, key: Value, mp: nat, prev: nat, n: nat)
      returns (at': Layout)
    requires WellFormed(hash, node, at) && Insertable(key) && Absent(node, key)
    requires mp == MainPosition(hash, |node|, key) && node[mp].val != Nil && Main(hash, node, mp) != mp
    requires prev < |node| && node[prev].next == mp
    requires n < |node| && node[n].key == Nil
    ensures WellFormed(hash, node[prev := node[prev].(next := n)][n := node[mp]][mp := Node(key, Nil, -1)], at')
  {
    var node' := node[prev := node[prev].(next := n)][n := node[mp]][mp := Node(key, Nil, -1)];
    at' := Layout(at.cid[n := at.cid[mp]][mp := at.ids], at.pos[n := at.pos[mp]], at.ids + 1);
    assert KeyOk(node, mp) && UnusedOk(node, at, n) && LinkOk(node, at, prev) && LinkOk(node, at, mp);
    assert n != mp && n != prev && prev != mp;
    assert Main(hash, node', n) == Main(hash, node, mp);
    assert Main(hash, node', mp) == mp;
    MoveGuestLinks(node, at, key, mp, prev, n);
    forall p ensures PlacedOk(hash, node', at', p) {
      if 0 <= p < |node| && p != mp {
        var o := if p == n then mp else p;
        assert PlacedOk(hash, node, at, o);
      }
    }
    forall p ensures UnusedOk(node', at', p) && KeyOk(node', p) {
      assert UnusedOk(node, at, p) && KeyOk(node, p) && LinkOk(node, at, p);
    }
    forall p, q ensures DistinctOk(node', at', p, q) {
      MoveGuestDistinct(hash, node, at, key, mp, prev, n, p, q);
    }
  }

  lemma MoveGuestDistinct(hash: Value -> nat, node: seq<Node>, at: Layout, key: Value, mp: nat, prev: nat, n: nat, p: int, q: int)
    requires WellFormed(hash, node, at) && Insertable(key) && Absent(node, key)
    requires mp == MainPosition(hash, |node|, key) && node[mp].val != Nil && Main(hash, node, mp) != mp
    requires prev < |node| && node[prev].next == mp && n < |node| && node[n].key == Nil && n != mp
    ensures DistinctOk(node[prev := node[prev].(next := n)][n := node[mp]][mp := Node(key, Nil, -1)],
                       Layout(at.cid[n := at.cid[mp]][mp := at.ids], at.pos[n := at.pos[mp]], at.ids + 1), p, q)
  {
    hide MainPosition;
    var op, oq := if p == n then mp else p, if q == n then mp else q;
    assert DistinctOk(node, at, op, oq);
    if p == mp {
      assert PlacedOk(hash, node, at, oq);
    } else if q == mp && 0 <= p < |node| {
      assert node[op].key != key;
    }
  }

  lemma MoveGuestLinks(node: seq<Node>, at: Layout, key: Value, mp: nat, prev: nat, n: nat)
    requires Links(node, at)
    requires mp < |node| && prev < |node| && n < |node| && n != mp && n != prev && node[prev].next == mp
    requires node[n].key == Nil && UnusedOk(node, at, n)
    ensures Links(node[prev := node[prev].(next := n)][n := node[mp]][mp := Node(key, Nil, -1)],
                  Layout(at.cid[n := at.cid[mp]][mp := at.ids], at.pos[n := at.pos[mp]], at.ids + 1))
  {
    var node' := node[prev := node[prev].(next := n)][n := node[mp]][mp := Node(key, Nil, -1)];
    var at' := Layout(at.cid[n := at.cid[mp]][mp := at.ids], at.pos[n := at.pos[mp]], at.ids + 1);
    assert LinkOk(node, at, prev) && LinkOk(node, at, mp);
    forall p ensures LinkOk(node', at', p) {
      var op := if p == n then mp else p;
      assert LinkOk(node, at, p) && LinkOk(node, at, op);
      if 0 <= op < |node| && node[op].next == mp {
        LinksAcyclicAndInjective(node, at, op, prev);
      }
    }
    forall p, q ensures NoSkip(node', at', p, q) {
      MoveGuestNoSkip(node, at, key, mp, prev, n, p, q);
    }
  }

  lemma MoveGuestNoSkip(node: seq<Node>, at: Layout, key: Value, mp: nat, prev: nat, n: nat, p: int, q: int)
    requires Links(node, at)
    requires mp < |node| && prev < |node| && n < |node| && n != mp && n != prev && node[prev].next == mp
    requires node[n].key == Nil && UnusedOk(node, at, n)
    ensures NoSkip(node[prev := node[prev].(next := n)][n := node[mp]][mp := Node(key, Nil, -1)],
                   Layout(at.cid[n := at.cid[mp]][mp := at.ids], at.pos[n := at.pos[mp]], at.ids + 1), p, q)
  {
    assert LinkOk(node, at, prev) && LinkOk(node, at, mp);
    var op, oq := if p == n then mp else p, if q == n then mp else q;
    assert NoSkip(node, at, op, oq);
    assert LinkOk(node, at, op) && LinkOk(node, at, oq) && LinkOk(node, at, p) && LinkOk(node, at, q);
    if 0 <= op < |node| && node[op].next == mp {
      LinksAcyclicAndInjective(node, at, op, prev);
    }
    GuestNoSkip(node, at, key, mp, prev, n, p, q);
  }

  lemma GuestNoSkip(node: seq<Node>, at: Layout, key: Value, mp: nat, prev: nat, n: nat, p: int, q: int)
    requires |at.cid| == |at.pos| == |node| && mp < |node| && prev < |node| && n < |node| && n != mp && n != prev && node[prev].next == mp
    requires node[n].key == Nil && UnusedOk(node, at, n) && LinkOk(node, at, prev) && LinkOk(node, at, mp)
    requires var op, oq := if p == n then mp else p, if q == n then mp else q;
             && NoSkip(node, at, op, oq) && LinkOk(node, at, op) && LinkOk(node, at, oq) && LinkOk(node, at, p) && LinkOk(node, at, q)
             && (0 <= op < |node| && node[op].next == mp ==> op == prev)
    ensures NoSkip(node[prev := node[prev].(next := n)][n := node[mp]][mp := Node(key, Nil, -1)],
                   Layout(at.cid[n := at.cid[mp]][mp := at.ids], at.pos[n := at.pos[mp]], at.ids + 1), p, q)
  {
  }

  // ---------------------------------------------------------------------------
  // The finite map a table stands for
  // ---------------------------------------------------------------------------

  ghost predicate LiveAt(node: seq<Node>, key: Value, p: int) {
    0 <= p < |node| && node[p].key == key && node[p].val != Nil
  }

  ghost function NodeValue(node: seq<Node>, key: Value): Value {
    if exists p :: LiveAt(node, key, p) then
      var p :| LiveAt(node, key, p);
      node[p].val
    else
      Nil
  }

  predicate InArray(arr: seq<Value>, key: Value) {
    key.Integer? && 1 <= key.n <= |arr|
  }

  ghost function LookupIn(arr: seq<Value>, node: seq<Node>, key: Value): Value {
    if InArray(arr, key) then arr[key.n - 1] else NodeValue(node, key)
  }

  lemma NodeValueAt(hash: Value -> nat, node: seq<Node>, at: Layout, key: Value, p: int)
    requires WellFormed(hash, node, at) && 0 <= p < |node| && node[p].key == key
    requires Insertable(key) || LiveAt(node, key, p)
    ensures NodeValue(node, key) == node[p].val
  {
    assert KeyOk(node, p);
    if exists q :: LiveAt(node, key, q) {
      var q :| LiveAt(node, key, q) && node[q].val == NodeValue(node, key);
      assert KeyOk(node, q) && DistinctOk(node, at, p, q) && DistinctOk(node, at, q, p);
    } else {
      assert !LiveAt(node, key, p);
    }
  }

  /** Two node vectors with the same live entries stand for the same map. */
  lemma SameLive(hash: Value -> nat, node: seq<Node>, at: Layout, node': seq<Node>, at': Layout, key: Value)
    requires WellFormed(hash, node, at) && WellFormed(hash, node', at')
    requires forall p | LiveAt(node, key, p) :: exists q :: LiveAt(node', key, q) && node'[q].val == node[p].val
    requires forall q | LiveAt(node', key, q) :: exists p :: LiveAt(node, key, p) && node'[q].val == node[p].val
    ensures NodeValue(node, key) == NodeValue(node', key)
  {
    if exists p :: LiveAt(node, key, p) {
      var p :| LiveAt(node, key, p);
      var q :| LiveAt(node', key, q) && node'[q].val == node[p].val;
      NodeValueAt(hash, node, at, key, p);
      NodeValueAt(hash, node', at', key, q);
    }
  }

  lemma NilHasNoValue(hash: Value -> nat, node: seq<Node>, at: Layout)
    requires WellFormed(hash, node, at)
    ensures NodeValue(node, Nil) == Nil
  {
    forall p ensures !LiveAt(node, Nil, p) {
      assert KeyOk(node, p);
    }
  }

  ghost function LiveArrayKeys(arr: seq<Value>): set<Value> {
    set i | 0 <= i < |arr| && arr[i] != Nil :: Integer(i + 1)
  }

  ghost function LiveNodeKeys(node: seq<Node>): set<Value> {
    set p | 0 <= p < |node| && node[p].val != Nil :: node[p].key
  }

  ghost function KeySet(node: seq<Node>): set<Value> {
    set p | 0 <= p < |node| && node[p].key != Nil :: node[p].key
  }

  lemma SameKeySet(node: seq<Node>, node': seq<Node>)
    requires |node| == |node'| && forall p :: 0 <= p < |node| ==> node[p].key == node'[p].key
    ensures KeySet(node) == KeySet(node')
  {
    forall k ensures k in KeySet(node) <==> k in KeySet(node') {
      if k in KeySet(node) {
        var p :| 0 <= p < |node| && node[p].key != Nil && node[p].key == k;
        assert node'[p].key == k;
      }
      if k in KeySet(node') {
        var p :| 0 <= p < |node| && node'[p].key != Nil && node'[p].key == k;
        assert node[p].key == k;
      }
    }
  }

  /** newkey only moves live entries around: those of `src` end up at `dst`, all others stay. */
  lemma SameEntries(hash: Value -> nat, node: seq<Node>, at: Layout, node': seq<Node>, at': Layout, key: Value,
                    src: nat, dst: nat)
    requires WellFormed(hash, node, at) && WellFormed(hash, node', at') && |node| == |node'|
    requires src < |node| && dst < |node|
    requires forall p :: 0 <= p < |node| && node[p].val != Nil ==>
               var q := if p == src then dst else p;
               node'[q].key == node[p].key && node'[q].val == node[p].val
    requires forall q :: 0 <= q < |node| && node'[q].val != Nil ==>
               var p := if q == dst then src else q;
               node[p].key == node'[q].key && node[p].val == node'[q].val
    requires forall q :: 0 <= q < |node| && node'[q].key != Nil && node'[q].key != key ==>
               node[if q == dst then src else q].key == node'[q].key
    ensures forall k :: NodeValue(node', k) == NodeValue(node, k)
    ensures KeySet(node') <= KeySet(node) + {key}
  {
    forall k ensures NodeValue(node', k) == NodeValue(node, k) {
      forall p | LiveAt(node, k, p) ensures exists q :: LiveAt(node', k, q) && node'[q].val == node[p].val {
        assert LiveAt(node', k, if p == src then dst else p);
      }
      forall q | LiveAt(node', k, q) ensures exists p :: LiveAt(node, k, p) && node'[q].val == node[p].val {
        assert LiveAt(node, k, if q == dst then src else q);
      }
      SameLive(hash, node, at, node', at', k);
    }
    forall k | k in KeySet(node') && k != key ensures k in KeySet(node) {
      var q :| 0 <= q < |node'| && node'[q].key != Nil && node'[q].key == k;
      assert node[if q == dst then src else q].key == k;
    }
  }

  ghost predicate Inserted(arr: seq<Value>, node: seq<Node>, node': seq<Node>, key: Value, from: nat) {
    && |node'| == |node|
    && (forall k :: NodeValue(node', k) == NodeValue(node, k))
    && KeySet(node') <= KeySet(node) + {key}
    && OutsideArray(arr, node') && UsedFrom(node', from)
  }

  lemma MoveGuestInserts(hash: Value -> nat, arr: seq<Value>, node: seq<Node>, at: Layout, key: Value,
                         mp: nat, prev: nat, n: nat) returns (at': Layout)
    requires WellFormed(hash, node, at) && Insertable(key) && Absent(node, key) && !InArray(arr, key)
    requires OutsideArray(arr, node) && n < |node| && UsedFrom(node, n + 1)
    requires mp == MainPosition(hash, |node|, key) && node[mp].val != Nil && Main(hash, node, mp) != mp
    requires prev < |node| && node[prev].next == mp && node[n].key == Nil
    ensures var node' := node[prev := node[prev].(next := n)][n := node[mp]][mp := Node(key, Nil, -1)];
            WellFormed(hash, node', at') && Inserted(arr, node, node', key, n)
  {
    at' := MoveGuest(hash, node, at, key, mp, prev, n);
    assert UnusedOk(node, at, n) && KeyOk(node, mp);
    var node' := node[prev := node[prev].(next := n)][n := node[mp]][mp := Node(key, Nil, -1)];
    SameEntries(hash, node, at, node', at', key, mp, n);
  }

  lemma LinkAfterInserts(hash: Value -> nat, arr: seq<Value>, node: seq<Node>, at: Layout, key: Value, mp: nat, n: nat)
      returns (at': Layout)
    requires WellFormed(hash, node, at) && Insertable(key) && Absent(node, key) && !InArray(arr, key)
    requires OutsideArray(arr, node) && n < |node| && UsedFrom(node, n + 1)
    requires mp == MainPosition(hash, |node|, key) && node[mp].val != Nil && Main(hash, node, mp) == mp
    requires node[n].key == Nil
    ensures var node' := node[n := Node(key, Nil, node[mp].next)][mp := node[mp].(next := n)];
            WellFormed(hash, node', at') && Inserted(arr, node, node', key, n)
  {
    at' := LinkAfter(hash, node, at, key, mp, n);
    assert UnusedOk(node, at, n) && KeyOk(node, mp);
    var node' := node[n := Node(key, Nil, node[mp].next)][mp := node[mp].(next := n)];
    SameEntries(hash, node, at, node', at', key, mp, mp);
  }

  /** The fresh node vector of setnodevector. */
  ghost predicate AllFree(node: seq<Node>) {
    forall p :: 0 <= p < |node| ==> node[p] == Node(Nil, Nil, -1)
  }

  ghost function Singletons(n: nat): Layout {
    Layout(seq(n, i requires 0 <= i < n => i), seq(n, i => 0.0), n)
  }

  lemma FreshWellFormed(hash: Value -> nat, node: seq<Node>)
    requires |node| > 0 && AllFree(node)
    ensures WellFormed(hash, node, Singletons(|node|))
    ensures forall k :: NodeValue(node, k) == Nil
    ensures KeySet(node) == {}
  {
    assert forall p :: PlacedOk(hash, node, Singletons(|node|), p);
  }

  lemma OneNodePerKey(node: seq<Node>, at: Layout, p: int, q: int)
    requires |at.pos| == |node| && DistinctOk(node, at, p, q) && DistinctOk(node, at, q, p)
    requires 0 <= p < |node| && 0 <= q < |node| && node[p].key == node[q].key && Insertable(node[p].key)
    ensures p == q
  {
  }

  /** Pigeonhole: a full node vector without dead keys has as many keys as nodes. */
  lemma {:induction false} FullKeySet(node: seq<Node>, at: Layout, n: nat)
    requires |at.pos| == |node| && n <= |node|
    requires forall p :: 0 <= p < |node| ==> node[p].key != Nil && !node[p].key.Dead?
    requires forall p, q :: DistinctOk(node, at, p, q)
    ensures |KeySet(node[..n])| == n
  {
    if n > 0 {
      FullKeySet(node, at, n - 1);
      var k := node[n - 1].key;
      if k in KeySet(node[..n - 1]) {
        var p :| 0 <= p < n - 1 && node[..n - 1][p].key == k;
        OneNodePerKey(node, at, p, n - 1);
      }
      forall x ensures x in KeySet(node[..n]) <==> x in KeySet(node[..n - 1]) + {k} {
        if x in KeySet(node[..n]) {
          var p :| 0 <= p < n && node[..n][p].key == x;
          assert p < n - 1 ==> node[..n - 1][p].key == x;
        }
        if x in KeySet(node[..n - 1]) {
          var p :| 0 <= p < n - 1 && node[..n - 1][p].key == x;
          assert node[..n][p].key == x;
        }
        if x == k {
          assert node[..n][n - 1].key == x;
        }
      }
      assert KeySet(node[..n]) == KeySet(node[..n - 1]) + {k};
    } else {
      assert KeySet(node[..0]) == {};
    }
  }

  /** The keys of K that have no place in an array part of size n. */
  ghost function Outside(K: set<Value>, n: nat): set<Value> {
    set k | k in K && !(k.Integer? && 1 <= k.n <= n)
  }

  ghost function ArrayRest(arr: seq<Value>, i: nat): set<Value> {
    set j | i <= j < |arr| && arr[j] != Nil :: Integer(j + 1)
  }

  lemma ArrayRestStep(arr: seq<Value>, i: nat)
    requires i < |arr|
    ensures ArrayRest(arr, i) - {Integer(i + 1)} == ArrayRest(arr, i + 1)
    ensures Integer(i + 1) in ArrayRest(arr, i) <==> arr[i] != Nil
  {
    forall k | k in ArrayRest(arr, i) && k != Integer(i + 1) ensures k in ArrayRest(arr, i + 1) {
      var j :| i <= j < |arr| && arr[j] != Nil && k == Integer(j + 1);
      assert i + 1 <= j;
    }
  }

  lemma LiveNodeKeysStep(hash: Value -> nat, node: seq<Node>, at: Layout, i: nat)
    requires WellFormed(hash, node, at) && i < |node|
    ensures LiveNodeKeys(node[..i + 1]) ==
            LiveNodeKeys(node[..i]) + (if node[i].val != Nil then {node[i].key} else {})
    ensures node[i].val != Nil ==> node[i].key !in LiveNodeKeys(node[..i])
  {
    var l, l' := LiveNodeKeys(node[..i]), LiveNodeKeys(node[..i + 1]);
    forall k ensures k in l' <==> k in l || (node[i].val != Nil && k == node[i].key) {
      if k in l' {
        var p :| 0 <= p < i + 1 && node[..i + 1][p].val != Nil && node[..i + 1][p].key == k;
        assert p < i ==> node[..i][p] == node[p];
      }
      if k in l {
        var p :| 0 <= p < i && node[..i][p].val != Nil && node[..i][p].key == k;
        assert node[..i + 1][p] == node[p];
      }
      if node[i].val != Nil && k == node[i].key {
        assert node[..i + 1][i] == node[i];
      }
    }
    if node[i].val != Nil && node[i].key in l {
      var p :| 0 <= p < i && node[..i][p].val != Nil && node[..i][p].key == node[i].key;
      assert KeyOk(node, i);
      OneNodePerKey(node, at, p, i);
    }
  }

  lemma LiveNodeKeysPrefix(node: seq<Node>, i: nat)
    requires i <= |node|
    ensures LiveNodeKeys(node[..i]) <= LiveNodeKeys(node)
  {
    forall k | k in LiveNodeKeys(node[..i]) ensures k in LiveNodeKeys(node) {
      var p :| 0 <= p < i && node[..i][p].val != Nil && node[..i][p].key == k;
      assert node[p].key == k;
    }
  }

  lemma OutsideCount(K: set<Value>, n: nat)
    ensures |Outside(K, n)| == |K| - |Between(K, 0, n)|
  {
    assert Outside(K, n) == K - Between(K, 0, n);
  }

  /** Fewer keys than nodes: some node is free. */
  lemma FewKeysLeaveRoom(hash: Value -> nat, node: seq<Node>, at: Layout, S: set<Value>)
    requires WellFormed(hash, node, at) && KeySet(node) <= S && |S| < |node|
    requires forall k :: k in S ==> !k.Dead?
    ensures exists p :: 0 <= p < |node| && node[p].key == Nil
  {
    if forall p :: 0 <= p < |node| ==> node[p].key != Nil {
      forall p | 0 <= p < |node| ensures !node[p].key.Dead? {
        assert node[p].key in KeySet(node);
      }
      FullKeySet(node, at, |node|);
      assert node[..|node|] == node;
      Subset(KeySet(node), S);
    }
  }

  lemma SameLiveKeys(node: seq<Node>, node': seq<Node>)
    requires |node| == |node'|
    requires forall p :: 0 <= p < |node| ==>
               node[p].val == node'[p].val && (node[p].val != Nil ==> node[p].key == node'[p].key)
    ensures LiveNodeKeys(node) == LiveNodeKeys(node')
  {
    forall k | k in LiveNodeKeys(node) ensures k in LiveNodeKeys(node') {
      var p :| 0 <= p < |node| && node[p].val != Nil && node[p].key == k;
      assert node'[p].key == k;
    }
    forall k | k in LiveNodeKeys(node') ensures k in LiveNodeKeys(node) {
      var p :| 0 <= p < |node| && node'[p].val != Nil && node'[p].key == k;
      assert node[p].key == k;
    }
  }

  ghost predicate UsedFrom(node: seq<Node>, from: int) {
    forall p :: 0 <= p < |node| && from <= p ==> node[p].key != Nil
  }

  ghost predicate OutsideArray(arr: seq<Value>, node: seq<Node>) {
    forall p :: 0 <= p < |node| ==> !InArray(arr, node[p].key)
  }

  // ---------------------------------------------------------------------------
  // Counting for rehash
  // ---------------------------------------------------------------------------

  /** The inner loop of numusearray: the non-nil slots of one slice. */
  method CountSlice(arr: seq<Value>, low: nat, lim: nat, ghost K: set<Value>) returns (lc: int)
    requires low <= lim <= |arr| && K == LiveArrayKeys(arr)
    ensures lc == |Between(K, low, lim)|
  {
    var i := low + 1;
    lc := 0;
    assert Between(K, low, low) == {};
    while i <= lim
      invariant low + 1 <= i <= lim + 1
      invariant lc == |Between(K, low, i - 1)|
    {
      BetweenSplit(K, low, i - 1, i);
      assert Integer(i) in K <==> arr[i - 1] != Nil;
      if arr[i - 1] != Nil {
        assert Between(K, i - 1, i) == {Integer(i)};
        lc := lc + 1;
      } else {
        assert Between(K, i - 1, i) == {};
      }
      i := i + 1;
    }
  }

  function Min(a: int, b: int): int {
    if a < b then a else b
  }

  /** numusearray: counts the keys of the array part, slice by slice. */
  method NumUseArray(arr: seq<Value>, nums: array<int>) returns (ause: int)
    requires |arr| <= MAXASIZE && nums.Length == MAXBITS + 1 && forall i :: 0 <= i < nums.Length ==> nums[i] == 0
    modifies nums
    ensures Tally(nums[..], LiveArrayKeys(arr))
    ensures ause == |LiveArrayKeys(arr)| == |Between(LiveArrayKeys(arr), 0, MAXASIZE)|
  {
    hide Between, Slice, LiveArrayKeys, Pow2;
    ghost var K := LiveArrayKeys(arr);
    MaxSize();
    NothingYet(K);
    ause := 0;
    var i, lg, ttlg := 1, 0, 1;
    while lg <= MAXBITS
      invariant 0 <= lg <= MAXBITS + 1 && ttlg == Pow2(lg)
      invariant i == Min(Low(lg), |arr|) + 1
      invariant forall j :: 0 <= j < lg ==> nums[j] == |Slice(K, j)|
      invariant forall j :: lg <= j <= MAXBITS ==> nums[j] == 0
      invariant ause == |Between(K, 0, i - 1)|
    {
      NextSlice(lg);
      var lim := ttlg;
      if lim > |arr| {
        lim := |arr|;
        if i > lim {
          break;
        }
      }
      var lc := CountSlice(arr, i - 1, lim, K);
      BetweenSplit(K, 0, i - 1, lim);
      SliceOfArray(arr, lg, i - 1, lim);
      nums[lg] := nums[lg] + lc;
      ause := ause + lc;
      i := lim + 1;
      lg, ttlg := lg + 1, ttlg * 2;
    }
    EmptySlices(arr, lg, i);
  }

  lemma NextSlice(lg: nat)
    ensures Pow2(lg + 1) == Pow2(lg) * 2 && Low(lg) <= Pow2(lg) && Low(lg + 1) == Pow2(lg)
  {
  }

  lemma NothingYet(K: set<Value>)
    ensures Between(K, 0, 0) == {} && Pow2(0) == 1 && Low(0) == 0
  {
  }

  /** The part of the array that a slice covers. */
  lemma SliceOfArray(arr: seq<Value>, lg: nat, from: int, lim: nat)
    requires from == Min(Low(lg), |arr|) && lim == Min(Pow2(lg), |arr|)
    ensures Between(LiveArrayKeys(arr), from, lim) == Slice(LiveArrayKeys(arr), lg)
  {
  }

  /** The slices beyond the end of the array. */
  lemma EmptySlices(arr: seq<Value>, lg: nat, i: int)
    requires |arr| <= MAXASIZE && lg <= MAXBITS + 1 && i == Min(Low(lg), |arr|) + 1 && (lg <= MAXBITS ==> Low(lg) >= |arr|)
    ensures forall j :: lg <= j <= MAXBITS ==> Slice(LiveArrayKeys(arr), j) == {}
    ensures var K := LiveArrayKeys(arr); Between(K, 0, i - 1) == K == Between(K, 0, MAXASIZE)
  {
    MaxSize();
    forall j | lg <= j <= MAXBITS ensures Slice(LiveArrayKeys(arr), j) == {} {
      Pow2Monotone(if lg == 0 then 0 else lg - 1, if j == 0 then 0 else j - 1);
    }
  }

  /** numusehash: counts the entries of the hash part, and the array candidates among them. */
  method NumUseHash(node: seq<Node>, nums: array<int>, ghost hash: Value -> nat, ghost at: Layout, ghost K: set<Value>)
      returns (totaluse: int, ause: int)
    requires WellFormed(hash, node, at) && forall p :: 0 <= p < |node| ==> node[p].key !in K
    requires nums.Length == MAXBITS + 1 && Tally(nums[..], K)
    modifies nums
    ensures Tally(nums[..], K + LiveNodeKeys(node))
    ensures totaluse == |LiveNodeKeys(node)|
    ensures ause == |Between(K + LiveNodeKeys(node), 0, MAXASIZE)| - |Between(K, 0, MAXASIZE)|
  {
    totaluse, ause := 0, 0;
    var i := |node|;
    assert node[..|node|] == node && K + Counted(node, |node|) == K;
    while i > 0
      invariant 0 <= i <= |node|
      invariant Tally(nums[..], K + Counted(node, i))
      invariant totaluse == |Counted(node, i)|
      invariant ause == |Between(K + Counted(node, i), 0, MAXASIZE)| - |Between(K, 0, MAXASIZE)|
    {
      i := i - 1;
      CountedStep(hash, node, at, i, K);
      if node[i].val != Nil {
        var counted := CountInt(node[i].key, nums, K + Counted(node, i + 1));
        ause := ause + counted;
        totaluse := totaluse + 1;
      }
    }
    assert LiveNodeKeys(node[..0]) == {};
    assert Counted(node, 0) == LiveNodeKeys(node);
  }

  ghost function Counted(node: seq<Node>, i: nat): set<Value>
    requires i <= |node|
  {
    LiveNodeKeys(node) - LiveNodeKeys(node[..i])
  }

  lemma CountedStep(hash: Value -> nat, node: seq<Node>, at: Layout, i: nat, K: set<Value>)
    requires WellFormed(hash, node, at) && i < |node| && node[i].key !in K
    ensures node[i].val == Nil ==> Counted(node, i) == Counted(node, i + 1)
    ensures node[i].val != Nil ==>
              && node[i].key !in K + Counted(node, i + 1)
              && |Counted(node, i)| == |Counted(node, i + 1)| + 1
              && K + Counted(node, i) == (K + Counted(node, i + 1)) + {node[i].key}
  {
    LiveNodeKeysStep(hash, node, at, i);
    LiveNodeKeysPrefix(node, i + 1);
    if node[i].val != Nil {
      TakeOne(LiveNodeKeys(node), LiveNodeKeys(node[..i]), LiveNodeKeys(node[..i + 1]), K, node[i].key);
    } else {
      assert LiveNodeKeys(node[..i]) == LiveNodeKeys(node[..i + 1]);
    }
  }

  lemma TakeOne(L: set<Value>, P: set<Value>, P': set<Value>, K: set<Value>, k: Value)
    requires P' == P + {k} && k !in P && P' <= L && k !in K
    ensures |L - P| == |L - P'| + 1
    ensures k !in K + (L - P')
    ensures K + (L - P) == (K + (L - P')) + {k}
  {
    assert L - P == (L - P') + {k};
  }

  class Table {
    const hash: Value -> nat
    var arr: seq<Value>
    var node: seq<Node>
    var lsizenode: nat
    var isDummy: bool  // node == dummynode
    var lastfree: int  // any free position is before this one
    var flags: bv8
    ghost var at: Layout

    ghost predicate Valid()
      reads this
    {
      && WellFormed(hash, node, at)
      && |node| == Pow2(lsizenode) && lsizenode <= MAXBITS
      && |arr| <= MAXASIZE
      && lastfree <= |node|
      && (isDummy ==> lsizenode == 0 && node == [Node(Nil, Nil, -1)] && lastfree <= 0)
      && (!isDummy ==> UsedFrom(node, lastfree))
      && OutsideArray(arr, node)
    }

    ghost function Get(key: Value): Value
      reads this
    {
      LookupIn(arr, node, key)
    }

    ghost function LiveKeys(): set<Value>
      reads this
    {
      LiveArrayKeys(arr) + LiveNodeKeys(node)
    }

    /** The abstraction: the finite map from keys to non-nil values. */
    ghost function Contents(): map<Value, Value>
      reads this
    {
      map k | k in LiveKeys() :: Get(k)
    }

    ghost predicate HasRoom()
      reads this
    {
      !isDummy && exists p :: 0 <= p < |node| && node[p].key == Nil
    }

    ghost predicate SlotFor(s: Slot, key: Value)
      reads this
    {
      match s
      case NilObject => false
      case ArraySlot(i) => i < |arr| && key == Integer(i + 1)
      case NodeSlot(p) => p < |node| && node[p].key == key && !InArray(arr, key)
    }

    lemma SlotValue(s: Slot, key: Value)
      requires Valid() && SlotFor(s, key) && Insertable(key)
      ensures Get(key) == (match s case NilObject => Nil case ArraySlot(i) => arr[i] case NodeSlot(p) => node[p].val)
    {
      if s.NodeSlot? {
        NodeValueAt(hash, node, at, key, s.p);
      }
    }

    lemma ContentsAt(key: Value)
      requires Valid()
      ensures key in Contents() <==> Get(key) != Nil
      ensures key in Contents() ==> Contents()[key] == Get(key)
    {
      if Get(key) != Nil {
        if InArray(arr, key) {
          assert Integer(key.n - 1 + 1) == key;
        } else {
          var p :| LiveAt(node, key, p);
        }
      }
      if key in LiveNodeKeys(node) {
        var p :| 0 <= p < |node| && node[p].val != Nil && node[p].key == key;
        assert LiveAt(node, key, p);
        NodeValueAt(hash, node, at, key, p);
      }
    }

    /** luaH_new without the pre-sizing. */
    constructor (hash: Value -> nat)
      ensures Valid() && Contents() == map[] && arr == [] && isDummy && this.hash == hash
    {
      this.hash := hash;
      arr, node, lsizenode, isDummy, lastfree, flags := [], [Node(Nil, Nil, -1)], 0, true, 0, 0xff;
      at := Layout([0], [0.0], 1);
      new;
      assert node[0].key == Nil;
      assert forall p :: PlacedOk(hash, node, at, p);
    }

    // -------------------------------------------------------------------------
    // Searching
    // -------------------------------------------------------------------------

    ghost function Rest(n: int): set<int>
      reads this
      requires |at.cid| == |at.pos| && 0 <= n < |at.cid|
    {
      set q | 0 <= q < |at.cid| && Reaches(at, n, q)
    }

    /** The search loop shared by luaH_getnum, luaH_getstr and luaH_get. */
    method FindInChain(key: Value) returns (s: Slot)
      requires Valid() && Insertable(key)
      ensures s.NilObject? ==> Absent(node, key)
      ensures !s.NilObject? ==> s.NodeSlot? && s.p < |node| && node[s.p].key == key
    {
      var n: int := MainPosition(hash, |node|, key);
      forall p | 0 <= p < |node| && node[p].key == key ensures Reaches(at, n, p) {
        assert PlacedOk(hash, node, at, p);
      }
      while n != -1
        invariant -1 <= n < |node|
        invariant n == -1 ==> Absent(node, key)
        invariant n != -1 ==> forall p :: 0 <= p < |node| && node[p].key == key ==> Reaches(at, n, p)
        decreases if n == -1 then {} else Rest(n)
      {
        if node[n].key == key {
          return NodeSlot(n);
        }
        assert LinkOk(node, at, n);
        forall p | 0 <= p < |node| && node[p].key == key
          ensures node[n].next != -1 && Reaches(at, node[n].next, p)
        {
          assert Reaches(at, n, p) && NoSkip(node, at, n, p);
        }
        if node[n].next != -1 {
          assert n in Rest(n) && n !in Rest(node[n].next);
        } else {
          assert n in Rest(n);
        }
        n := node[n].next;
      }
      s := NilObject;
    }

    method LuaHGetNum(key: int) returns (s: Slot)
      requires Valid()
      ensures s.NilObject? ==> Absent(node, Integer(key)) && !InArray(arr, Integer(key)) && Get(Integer(key)) == Nil
      ensures !s.NilObject? ==> SlotFor(s, Integer(key))
    {
      if 1 <= key <= |arr| {
        return ArraySlot(key - 1);
      }
      s := FindInChain(Integer(key));
    }

    method LuaHGetStr(key: Value) returns (s: Slot)
      requires Valid() && key.Str?
      ensures s.NilObject? ==> Absent(node, key) && Get(key) == Nil
      ensures !s.NilObject? ==> SlotFor(s, key)
    {
      s := FindInChain(key);
    }

    /** luaH_get: the slot of the key, or the shared nil when there is none. */
    method LuaHGet(key: Value) returns (s: Slot)
      requires Valid() && !key.Dead?
      ensures s.NilObject? ==> (key == Nil || Absent(node, key)) && !InArray(arr, key) && Get(key) == Nil
      ensures !s.NilObject? ==> SlotFor(s, key) && key != Nil
    {
      match key {
        case Nil =>
          NilHasNoValue(hash, node, at);
          s := NilObject;
        case Str(_) => s := LuaHGetStr(key);
        case Integer(n) => s := LuaHGetNum(n);
        case _ => s := FindInChain(key);
      }
    }

    method Read(s: Slot, ghost key: Value) returns (v: Value)
      requires Valid() && Insertable(key)
      requires if s.NilObject? then Get(key) == Nil else SlotFor(s, key)
      ensures v == Get(key)
    {
      if !s.NilObject? { SlotValue(s, key); }
      match s
      case NilObject => v := Nil;
      case ArraySlot(i) => v := arr[i];
      case NodeSlot(p) => v := node[p].val;
    }

    /** Storing through the pointer returned by luaH_set. */
    method Write(s: Slot, v: Value, ghost key: Value)
      requires Valid() && Insertable(key) && SlotFor(s, key)
      modifies this`arr, this`node
      ensures Valid()
      ensures forall k :: Get(k) == if k == key then v else old(Get(k))
      ensures |arr| == |old(arr)| && |node| == |old(node)|
      ensures KeySet(node) == old(KeySet(node))
      ensures forall p :: 0 <= p < |node| ==> node[p].key == old(node)[p].key && node[p].next == old(node)[p].next
      ensures old(HasRoom()) ==> HasRoom()
    {
      match s
      case ArraySlot(i) =>
        arr := arr[i := v];
      case NodeSlot(p) =>
        WriteNode(p, v, key);
    }

    method WriteNode(p: nat, v: Value, ghost key: Value)
      requires Valid() && Insertable(key) && p < |node| && node[p].key == key && !InArray(arr, key)
      modifies this`node
      ensures Valid()
      ensures forall k :: Get(k) == if k == key then v else old(Get(k))
      ensures |node| == |old(node)|
      ensures KeySet(node) == old(KeySet(node))
      ensures forall q :: 0 <= q < |node| ==> node[q].key == old(node)[q].key && node[q].next == old(node)[q].next
    {
      ghost var was := node;
      node := node[p := node[p].(val := v)];
      WriteKeepsShape(hash, was, at, p, v);
      forall k ensures NodeValue(node, k) == if k == key then v else NodeValue(was, k) {
        if k == key {
          NodeValueAt(hash, node, at, key, p);
        } else {
          assert forall q :: LiveAt(was, k, q) ==> LiveAt(node, k, q) && node[q].val == was[q].val;
          assert forall q :: LiveAt(node, k, q) ==> LiveAt(was, k, q) && node[q].val == was[q].val;
          SameLive(hash, was, at, node, at, k);
        }
      }
      SameKeySet(was, node);
    }

    // -------------------------------------------------------------------------
    // Inserting
    // -------------------------------------------------------------------------

    /** getfreepos: the last node whose key is nil, -1 if there is none. */
    method GetFreePos() returns (n: int)
      requires Valid()
      modifies this`lastfree
      ensures -1 <= n < |node| && lastfree <= old(lastfree)
      ensures n == -1 ==> !HasRoom() && lastfree < 0 && Valid()
      ensures n != -1 ==> lastfree == n && node[n].key == Nil && !isDummy && UsedFrom(node, n + 1)
    {
      n := -1;
      while lastfree > 0
        invariant lastfree <= old(lastfree)
        invariant !isDummy ==> UsedFrom(node, lastfree)
        decreases lastfree
      {
        lastfree := lastfree - 1;
        if node[lastfree].key == Nil {
          n := lastfree;
          return;
        }
      }
      lastfree := lastfree - 1;
    }

    /** Key k is found without a rehash: it has a slot, or there is a free node for it. */
    ghost predicate Settled(key: Value)
      reads this
    {
      InArray(arr, key) || !Absent(node, key) || HasRoom()
    }

    /** The shape after an insertion that did not rehash. */
    twostate predicate SameShape(key: Value)
      reads this
    {
      && arr == old(arr) && |node| == |old(node)| && lsizenode == old(lsizenode) && isDummy == old(isDummy)
      && KeySet(node) <= old(KeySet(node)) + {key}
    }

    /** newkey: makes a slot with value nil for a key that has none. */
    method NewKey(key: Value) returns (r: Result<Slot>)
      requires Valid() && Insertable(key) && Absent(node, key) && !InArray(arr, key)
      modifies this`arr, this`node, this`lsizenode, this`isDummy, this`lastfree, this`flags, this`at
      ensures r.Ok? ==> Valid() && SlotFor(r.value, key) && forall k :: Get(k) == old(Get(k))
      ensures old(HasRoom()) ==> r.Ok? && SameShape(key)
      ensures r.Ok? ==> flags == old(flags) || flags == 0
      ensures r.Err? ==> r.error == Overflow && |old(LiveKeys())| >= MAXASIZE
      decreases if HasRoom() then 0 else 1, 2
    {
      hide Links;
      var mp := MainPosition(hash, |node|, key);
      if node[mp].val != Nil || isDummy {
        var n := GetFreePos();
        if n == -1 {
          var e := Rehash(key);
          if e.Err? {
            return Err(e.error);
          }
          r := LuaHSet(key);
        } else {
          r := PlaceInFree(key, mp, n);
        }
      } else {
        TakeMain(key, mp);
        r := Ok(NodeSlot(mp));
      }
    }

    /** The rest of newkey when the main position has no value: the key takes the node as it is linked. */
    method TakeMain(key: Value, mp: nat)
      requires Valid() && Insertable(key) && Absent(node, key) && !InArray(arr, key)
      requires mp == MainPosition(hash, |node|, key) && mp < |node| && node[mp].val == Nil && !isDummy
      modifies this`node
      ensures Valid() && SlotFor(NodeSlot(mp), key) && (forall k :: Get(k) == old(Get(k))) && SameShape(key)
    {
      hide Links;
      ghost var was := node;
      ReuseNode(hash, node, at, key, mp);
      node := node[mp := node[mp].(key := key)];
      SameEntries(hash, was, at, node, at, key, mp, mp);
    }

    /** The rest of newkey when the main position is taken and `n` is free. */
    method PlaceInFree(key: Value, mp: nat, n: nat) returns (r: Result<Slot>)
      requires Insertable(key) && Absent(node, key) && !InArray(arr, key)
      requires WellFormed(hash, node, at) && OutsideArray(arr, node)
      requires n < |node| && node[n].key == Nil && UsedFrom(node, n + 1)
      requires mp == MainPosition(hash, |node|, key) && node[mp].val != Nil
      modifies this`node, this`at
      ensures WellFormed(hash, node, at) && Inserted(arr, old(node), node, key, n)
      ensures r.Ok? && SlotFor(r.value, key)
    {
      assert KeyOk(node, mp) && PlacedOk(hash, node, at, mp);
      var othern := MainPosition(hash, |node|, Base(node[mp].key));
      if othern != mp {
        othern := FindPrevious(othern, mp);
        r := MoveColliding(key, mp, othern, n);
      } else {
        r := ChainFree(key, mp, n);
      }
    }

    /** The colliding node is out of its main position: it moves into the free one. */
    method MoveColliding(key: Value, mp: nat, othern: nat, n: nat) returns (r: Result<Slot>)
      requires Insertable(key) && Absent(node, key) && !InArray(arr, key)
      requires WellFormed(hash, node, at) && OutsideArray(arr, node)
      requires n < |node| && node[n].key == Nil && UsedFrom(node, n + 1)
      requires mp == MainPosition(hash, |node|, key) && node[mp].val != Nil && Main(hash, node, mp) != mp
      requires othern < |node| && node[othern].next == mp
      modifies this`node, this`at
      ensures WellFormed(hash, node, at) && Inserted(arr, old(node), node, key, n)
      ensures r.Ok? && SlotFor(r.value, key)
    {
      assert UnusedOk(node, at, n) && LinkOk(node, at, othern) && KeyOk(node, mp);
      at := MoveGuestInserts(hash, arr, node, at, key, mp, othern, n);
      ghost var node' := node[othern := node[othern].(next := n)][n := node[mp]][mp := Node(key, Nil, -1)];
      node := node[othern := node[othern].(next := n)];  // redo the chain with n in place of mp
      node := node[n := node[mp]];                       // copy the colliding node into the free position
      node := node[mp := Node(key, Nil, -1)];            // now mp is free
      assert node == node';
      r := Ok(NodeSlot(mp));
    }

    /** The colliding node is in its own main position: the key goes into the free one. */
    method ChainFree(key: Value, mp: nat, n: nat) returns (r: Result<Slot>)
      requires Insertable(key) && Absent(node, key) && !InArray(arr, key)
      requires WellFormed(hash, node, at) && OutsideArray(arr, node)
      requires n < |node| && node[n].key == Nil && UsedFrom(node, n + 1)
      requires mp == MainPosition(hash, |node|, key) && node[mp].val != Nil && Main(hash, node, mp) == mp
      modifies this`node, this`at
      ensures WellFormed(hash, node, at) && Inserted(arr, old(node), node, key, n)
      ensures r.Ok? && SlotFor(r.value, key)
    {
      assert UnusedOk(node, at, n) && KeyOk(node, mp);
      at := LinkAfterInserts(hash, arr, node, at, key, mp, n);
      ghost var node' := node[n := Node(key, Nil, node[mp].next)][mp := node[mp].(next := n)];
      node := node[n := Node(key, node[n].val, node[mp].next)];
      node := node[mp := node[mp].(next := n)];
      assert node == node';
      r := Ok(NodeSlot(n));
    }

    /** The walk from a main position to the predecessor of `mp` in its chain. */
    method FindPrevious(start: nat, mp: nat) returns (prev: nat)
      requires WellFormed(hash, node, at)
      requires start < |node| && mp < |node| && start != mp && Reaches(at, start, mp)
      ensures prev < |node| && node[prev].next == mp
    {
      prev := start;
      assert NoSkip(node, at, prev, mp) && LinkOk(node, at, prev);
      while node[prev].next != mp
        invariant prev < |node| && prev != mp && Reaches(at, prev, mp)
        invariant 0 <= node[prev].next < |node|
        decreases Rest(prev)
      {
        assert NoSkip(node, at, prev, mp) && LinkOk(node, at, prev);
        assert prev in Rest(prev) && prev !in Rest(node[prev].next);
        prev := node[prev].next;
        assert NoSkip(node, at, prev, mp) && LinkOk(node, at, prev);
      }
    }

    /** luaH_set: the slot for writing the key; only the error for a nil key is not about size. */
    method LuaHSet(key: Value) returns (r: Result<Slot>)
      requires Valid() && !key.Dead?
      modifies this`arr, this`node, this`lsizenode, this`isDummy, this`lastfree, this`flags, this`at
      ensures r == Err(IndexIsNil) <==> key == Nil
      ensures r == Err(IndexIsNil) ==> Valid() && Contents() == old(Contents())
      ensures r.Ok? ==> Valid() && SlotFor(r.value, key) && forall k :: Get(k) == old(Get(k))
      ensures key != Nil && old(Settled(key)) ==> r.Ok? && SameShape(key)
      ensures r.Ok? || key == Nil ==> flags == 0
      ensures r.Err? && key != Nil ==> r.error == Overflow && |old(LiveKeys())| >= MAXASIZE
      ensures old(InArray(arr, key) || !Absent(node, key)) ==> arr == old(arr) && node == old(node) && at == old(at)
      decreases if Settled(key) then 0 else 1, 3
    {
      hide WellFormed, OutsideArray, UsedFrom, MainPosition;
      var p := LuaHGet(key);
      flags := 0;
      if p != NilObject {
        r := Ok(p);
      } else if key == Nil {
        r := Err(IndexIsNil);
      } else {
        r := NewKey(key);
      }
    }

    /** luaH_setnum. */
    method LuaHSetNum(key: int) returns (r: Result<Slot>)
      requires Valid()
      modifies this`arr, this`node, this`lsizenode, this`isDummy, this`lastfree, this`flags, this`at
      ensures r.Ok? ==> Valid() && SlotFor(r.value, Integer(key)) && forall k :: Get(k) == old(Get(k))
      ensures old(Settled(Integer(key))) ==> r.Ok? && SameShape(Integer(key))
      ensures r.Err? ==> r.error == Overflow && |old(LiveKeys())| >= MAXASIZE
      decreases if Settled(Integer(key)) then 0 else 1, 3
    {
      var p := LuaHGetNum(key);
      if p != NilObject {
        r := Ok(p);
      } else {
        r := NewKey(Integer(key));
      }
    }

    // -------------------------------------------------------------------------
    // Rehash
    // -------------------------------------------------------------------------

    /** setnodevector: a new, empty node vector. */
    method SetNodeVector(size: nat) returns (r: Result<()>)
      modifies this`node, this`lsizenode, this`isDummy, this`lastfree, this`at
      ensures r.Err? ==> r.error == Overflow && size > MAXASIZE
      ensures r.Ok? ==>
                && |node| == Pow2(lsizenode) && lsizenode <= MAXBITS && AllFree(node) && at == Singletons(|node|)
                && (isDummy <==> size == 0)
                && (size == 0 ==> lsizenode == 0 && lastfree == 0)
                && (size > 0 ==> IsCeilLog2(size, lsizenode) && lastfree == |node|)
      ensures r.Err? ==> unchanged(this)
    {
      if size == 0 {
        node, lsizenode, isDummy, lastfree := [Node(Nil, Nil, -1)], 0, true, 0;
        at := Singletons(1);
      } else {
        var lsize := CeilLog2(size);
        if lsize > MAXBITS {
          MaxSize();
          Pow2Monotone(MAXBITS, lsize - 1);
          return Err(Overflow);
        }
        node := seq(Pow2(lsize), _ => Node(Nil, Nil, -1));
        lsizenode, isDummy, lastfree := lsize, false, |node|;
        at := Singletons(|node|);
      }
      r := Ok(());
    }

    /** What holds while entries are moved to their new places: `rest` are the keys not yet moved. */
    ghost predicate Moving(a0: seq<Value>, n0: seq<Node>, live: set<Value>, nasize: nat, nhsize: nat, rest: set<Value>)
      reads this
    {
      && Valid() && |arr| == nasize && |Outside(live, nasize)| <= nhsize
      && (nhsize == 0 ==> isDummy) && (nhsize > 0 ==> !isDummy && IsCeilLog2(nhsize, lsizenode))
      && KeySet(node) <= Outside(live, nasize) - rest
      && rest <= live && (forall k :: k in live ==> Insertable(k))
      && forall k :: Get(k) == if k in rest then Nil else LookupIn(a0, n0, k)
    }

    lemma MovingHasRoom(a0: seq<Value>, n0: seq<Node>, live: set<Value>, nasize: nat, nhsize: nat, rest: set<Value>, key: Value)
      requires Moving(a0, n0, live, nasize, nhsize, rest) && key in rest
      ensures Settled(key)
    {
      if !InArray(arr, key) {
        var S := Outside(live, nasize) - {key};
        Subset({key}, Outside(live, nasize));
        FewKeysLeaveRoom(hash, node, at, S);
      }
    }

    /** One entry goes to its new place; no rehash can happen. */
    method Reinsert(key: Value, v: Value, ghost a0: seq<Value>, ghost n0: seq<Node>, ghost live: set<Value>,
                    ghost nasize: nat, ghost nhsize: nat, ghost rest: set<Value>)
      requires Moving(a0, n0, live, nasize, nhsize, rest) && key in rest && v == LookupIn(a0, n0, key)
      modifies this`arr, this`node, this`lsizenode, this`isDummy, this`lastfree, this`flags, this`at
      ensures Moving(a0, n0, live, nasize, nhsize, rest - {key})
      ensures flags == old(flags) || flags == 0
      decreases 0, 4
    {
      MovingHasRoom(a0, n0, live, nasize, nhsize, rest, key);
      var slot := LuaHSet(key);
      Write(slot.value, v, key);
    }

    /** resize: new sizes for both parts, every entry is re-inserted. */
    method Resize(nasize: nat, nhsize: nat) returns (r: Result<()>)
      requires Valid() && nasize <= MAXASIZE && |Outside(LiveKeys(), nasize)| <= nhsize
      modifies this`arr, this`node, this`lsizenode, this`isDummy, this`lastfree, this`flags, this`at
      ensures r.Ok? ==> Valid() && |arr| == nasize && forall k :: Get(k) == old(Get(k))
      ensures r.Ok? ==> (isDummy <==> nhsize == 0) && (nhsize > 0 ==> IsCeilLog2(nhsize, lsizenode))
      ensures r.Ok? ==> KeySet(node) <= Outside(old(LiveKeys()), nasize)
      ensures r.Ok? && |Outside(old(LiveKeys()), nasize)| < nhsize ==> HasRoom()
      ensures r.Err? ==> r.error == Overflow && nhsize > MAXASIZE
      ensures flags == old(flags) || flags == 0
      decreases 1, 0
    {
      hide WellFormed, Links;
      ghost var a0, n0, at0, live := arr, node, at, LiveKeys();
      LiveKeysInsertable();
      var oldasize, nold := |arr|, node;
      if nasize > oldasize {
        arr := arr + seq(nasize - oldasize, _ => Nil);
      }
      var e := SetNodeVector(nhsize);
      if e.Err? {
        return e;
      }
      FreshWellFormed(hash, node);
      if nasize < oldasize {
        var aold := arr;
        arr := arr[..nasize];
        StartMoving(a0, n0, at0, live, nasize, nhsize, ArrayRest(a0, nasize) + LiveNodeKeys(n0));
        ReinsertSlice(aold, a0, n0, live, nasize, nhsize);
      } else {
        assert ArrayRest(a0, oldasize) + LiveNodeKeys(n0) == LiveNodeKeys(n0);
        StartMoving(a0, n0, at0, live, nasize, nhsize, LiveNodeKeys(n0));
      }
      ReinsertNodes(nold, a0, at0, live, nasize, nhsize);
      MovedAll(a0, n0, live, nasize, nhsize);
      r := Ok(());
    }

    lemma LiveKeysInsertable()
      requires Valid()
      ensures forall k :: k in LiveKeys() ==> Insertable(k)
    {
      forall k | k in LiveKeys() ensures Insertable(k) {
        if k in LiveNodeKeys(node) {
          var p :| 0 <= p < |node| && node[p].val != Nil && node[p].key == k;
          assert KeyOk(node, p);
        }
      }
    }

    lemma MovedAll(a0: seq<Value>, n0: seq<Node>, live: set<Value>, nasize: nat, nhsize: nat)
      requires Moving(a0, n0, live, nasize, nhsize, {})
      ensures Valid() && KeySet(node) <= Outside(live, nasize)
      ensures |Outside(live, nasize)| < nhsize ==> HasRoom()
      ensures forall k :: Get(k) == LookupIn(a0, n0, k)
    {
      if |Outside(live, nasize)| < nhsize {
        FewKeysLeaveRoom(hash, node, at, Outside(live, nasize));
      }
    }

    /** The loop over the vanishing slice of the array part. */
    method ReinsertSlice(aold: seq<Value>, ghost a0: seq<Value>, ghost n0: seq<Node>, ghost live: set<Value>,
                         nasize: nat, ghost nhsize: nat)
      requires aold == a0 && nasize < |a0| && OutsideArray(a0, n0)
      requires Moving(a0, n0, live, nasize, nhsize, ArrayRest(a0, nasize) + LiveNodeKeys(n0))
      modifies this`arr, this`node, this`lsizenode, this`isDummy, this`lastfree, this`flags, this`at
      ensures Moving(a0, n0, live, nasize, nhsize, LiveNodeKeys(n0))
      ensures flags == old(flags) || flags == 0
      decreases 0, 5
    {
      hide Moving;
      var i := nasize;
      ghost var rest := ArrayRest(a0, nasize) + LiveNodeKeys(n0);
      while i < |aold|
        invariant nasize <= i <= |aold|
        invariant rest == ArrayRest(a0, i) + LiveNodeKeys(n0)
        invariant Moving(a0, n0, live, nasize, nhsize, rest)
        invariant flags == old(flags) || flags == 0
      {
        ArrayRestStep(a0, i);
        if aold[i] != Nil {
          assert Integer(i + 1) !in LiveNodeKeys(n0) by { assert InArray(a0, Integer(i + 1)); }
          Reinsert(Integer(i + 1), aold[i], a0, n0, live, nasize, nhsize, rest);
          rest := rest - {Integer(i + 1)};
        }
        i := i + 1;
        assert rest == ArrayRest(a0, i) + LiveNodeKeys(n0);
      }
      assert ArrayRest(a0, |a0|) == {};
      assert rest == LiveNodeKeys(n0);
    }

    /** The loop over the old node vector, from its end. */
    method ReinsertNodes(nold: seq<Node>, ghost a0: seq<Value>, ghost at0: Layout, ghost live: set<Value>,
                         ghost nasize: nat, ghost nhsize: nat)
      requires WellFormed(hash, nold, at0) && OutsideArray(a0, nold)
      requires Moving(a0, nold, live, nasize, nhsize, LiveNodeKeys(nold))
      modifies this`arr, this`node, this`lsizenode, this`isDummy, this`lastfree, this`flags, this`at
      ensures Moving(a0, nold, live, nasize, nhsize, {})
      ensures flags == old(flags) || flags == 0
      decreases 0, 5
    {
      hide Moving, WellFormed;
      var i := |nold|;
      assert nold[..|nold|] == nold;
      while i > 0
        invariant 0 <= i <= |nold|
        invariant Moving(a0, nold, live, nasize, nhsize, LiveNodeKeys(nold[..i]))
        invariant flags == old(flags) || flags == 0
      {
        i := i - 1;
        LiveNodeKeysStep(hash, nold, at0, i);
        if nold[i].val != Nil {
          assert LiveAt(nold, nold[i].key, i);
          NodeValueAt(hash, nold, at0, nold[i].key, i);
          ghost var rest := LiveNodeKeys(nold[..i + 1]);
          Reinsert(nold[i].key, nold[i].val, a0, nold, live, nasize, nhsize, rest);
          assert rest - {nold[i].key} == LiveNodeKeys(nold[..i]);
        } else {
          assert LiveNodeKeys(nold[..i + 1]) == LiveNodeKeys(nold[..i]);
        }
      }
      assert LiveNodeKeys(nold[..0]) == {};
    }

    lemma StartMoving(a0: seq<Value>, n0: seq<Node>, at0: Layout, live: set<Value>, nasize: nat, nhsize: nat, rest: set<Value>)
      requires WellFormed(hash, n0, at0) && OutsideArray(a0, n0)
      requires live == LiveArrayKeys(a0) + LiveNodeKeys(n0) && forall k :: k in live ==> Insertable(k)
      requires rest == ArrayRest(a0, if nasize < |a0| then nasize else |a0|) + LiveNodeKeys(n0)
      requires |arr| == nasize <= MAXASIZE && |Outside(live, nasize)| <= nhsize
      requires forall i :: 0 <= i < nasize ==> arr[i] == if i < |a0| then a0[i] else Nil
      requires |node| == Pow2(lsizenode) && lsizenode <= MAXBITS && AllFree(node) && WellFormed(hash, node, at)
      requires nhsize == 0 ==> isDummy && lsizenode == 0 && lastfree == 0
      requires nhsize > 0 ==> !isDummy && IsCeilLog2(nhsize, lsizenode) && lastfree == |node|
      ensures Moving(a0, n0, live, nasize, nhsize, rest)
    {
      FreshWellFormed(hash, node);
      forall k ensures Get(k) == if k in rest then Nil else LookupIn(a0, n0, k) {
        if k in LiveNodeKeys(n0) {
          var p :| 0 <= p < |n0| && n0[p].val != Nil && n0[p].key == k;
          assert !InArray(a0, k);
        } else if k in rest {
          assert InArray(a0, k);
        } else if InArray(a0, k) {
          if k.n > nasize {
            assert Integer(k.n - 1 + 1) == k;
          }
        } else {
          assert forall p :: LiveAt(n0, k, p) ==> k in LiveNodeKeys(n0);
        }
      }
      assert rest <= live;
    }

    /** rehash: the array part gets the best size for the keys in use, `ek` included, and the node vector
        has room for all the others, so that inserting `ek` afterwards cannot rehash again. */
    method Rehash(ek: Value) returns (r: Result<()>)
      requires Valid() && Insertable(ek) && Absent(node, ek) && !InArray(arr, ek)
      modifies this`arr, this`node, this`lsizenode, this`isDummy, this`lastfree, this`flags, this`at
      ensures r.Ok? ==> Valid() && forall k :: Get(k) == old(Get(k))
      ensures r.Ok? ==> Settled(ek)
      ensures r.Ok? ==> BestSize(old(LiveKeys()) + {ek}, |arr|)
      ensures r.Ok? ==>
                var others := |Outside(old(LiveKeys()) + {ek}, |arr|)|;
                if others == 0 then isDummy else !isDummy && others <= |node| < 2 * others
      ensures r.Err? ==> r.error == Overflow && |old(LiveKeys())| >= MAXASIZE
      ensures flags == old(flags) || flags == 0
      decreases 1, 1
    {
      hide BestSize, WellFormed;
      var n, others := PickSizes(ek);
      r := Resize(n, others);
    }

    /** The sizes rehash computes: the best array size, and room for exactly the other keys. */
    method PickSizes(ek: Value) returns (n: nat, others: nat)
      requires Valid() && Absent(node, ek) && !InArray(arr, ek)
      ensures n <= MAXASIZE && BestSize(LiveKeys() + {ek}, n) && others == |Outside(LiveKeys() + {ek}, n)|
      ensures others <= |LiveKeys()| + 1
      ensures |Outside(LiveKeys(), n)| <= others && (ek in Outside(LiveKeys() + {ek}, n) ==> |Outside(LiveKeys(), n)| < others)
    {
      hide BestSize, WellFormed, Tally;
      var nums := new int[MAXBITS + 1](_ => 0);
      ghost var K := LiveKeys() + {ek};
      var nasize, totaluse := CountKeys(ek, nums);
      var na;
      n, na := ComputeSizes(nums, nasize, K);
      OutsideCount(K, n);
      NotLive(ek);
      assert Outside(LiveKeys(), n) == Outside(K, n) - {ek};
      others := totaluse - na;
    }

    /** The counting half of rehash. */
    method CountKeys(ek: Value, nums: array<int>) returns (nasize: int, totaluse: int)
      requires Valid() && Absent(node, ek) && !InArray(arr, ek)
      requires nums.Length == MAXBITS + 1 && forall i :: 0 <= i < nums.Length ==> nums[i] == 0
      modifies nums
      ensures Tally(nums[..], LiveKeys() + {ek})
      ensures nasize == |Between(LiveKeys() + {ek}, 0, MAXASIZE)|
      ensures totaluse == |LiveKeys() + {ek}|
    {
      nasize := NumUseArray(arr, nums);
      totaluse := nasize;
      var hashuse, hashints := NumUseHash(node, nums, hash, at, LiveArrayKeys(arr));
      totaluse, nasize := totaluse + hashuse, nasize + hashints;
      LiveKeysDisjoint();
      NotLive(ek);
      var counted := CountInt(ek, nums, LiveKeys());
      nasize := nasize + counted;
      totaluse := totaluse + 1;
    }

    lemma LiveKeysDisjoint()
      requires Valid()
      ensures |LiveKeys()| == |LiveArrayKeys(arr)| + |LiveNodeKeys(node)|
    {
      assert LiveArrayKeys(arr) !! LiveNodeKeys(node);
    }

    lemma NotLive(key: Value)
      requires Valid() && Absent(node, key) && !InArray(arr, key)
      ensures key !in LiveKeys()
    {
    }

    /** luaH_resizearray, as OP_SETLIST calls it: to make the array part larger. */
    method LuaHResizeArray(nasize: nat) returns (r: Result<()>)
      requires Valid() && |arr| <= nasize <= MAXASIZE
      modifies this`arr, this`node, this`lsizenode, this`isDummy, this`lastfree, this`flags, this`at
      ensures r.Ok? && Valid() && |arr| == nasize && forall k :: Get(k) == old(Get(k))
    {
      var nsize := if isDummy then 0 else |node|;
      LiveNodeKeysBound(node, |node|);
      assert node[..|node|] == node;
      assert Outside(LiveKeys(), nasize) <= LiveNodeKeys(node);
      Subset(Outside(LiveKeys(), nasize), LiveNodeKeys(node));
      MaxSize();
      Pow2Monotone(lsizenode, MAXBITS);
      r := Resize(nasize, nsize);
    }

    // -------------------------------------------------------------------------
    // The table as a finite map
    // -------------------------------------------------------------------------

    /** lua_rawget. */
    method RawGet(key: Value) returns (v: Value)
      requires Valid() && !key.Dead?
      ensures v == if key in Contents() then Contents()[key] else Nil
    {
      var s := LuaHGet(key);
      ContentsAt(key);
      if key == Nil {
        v := Nil;
      } else {
        v := Read(s, key);
      }
    }

    /** lua_rawset: luaH_set, then the store through the slot. */
    method RawSet(key: Value, v: Value) returns (r: Result<()>)
      requires Valid() && !key.Dead?
      modifies this`arr, this`node, this`lsizenode, this`isDummy, this`lastfree, this`flags, this`at
      ensures r == Err(IndexIsNil) <==> key == Nil
      ensures r == Err(IndexIsNil) ==> Valid() && Contents() == old(Contents())
      ensures r.Ok? ==> Valid() && Contents() == Put(old(Contents()), key, v)
      ensures r.Ok? ==> forall k :: Get(k) == if k == key then v else old(Get(k))
      ensures r.Ok? ==> flags == 0
      ensures r.Err? && key != Nil ==> r.error == Overflow && |old(Contents())| >= MAXASIZE
      ensures r.Ok? && old(InArray(arr, key) || !Absent(node, key)) ==> Stable(old(Snap()), Snap())
    {
      hide WellFormed, Contents, Put, InMap, LiveKeys, Valid;
      ghost var m := Contents();
      ContentsAgree();
      LiveIsNotNil();
      var s := LuaHSet(key);
      if s.Err? {
        return Err(s.error);
      }
      Write(s.value, v, key);
      r := Ok(());
      ContentsAgree();
      LiveIsNotNil();
      PutAgrees(m, Contents(), key, v);
    }

    lemma ContentsAgree()
      requires Valid()
      ensures (forall k :: InMap(Contents(), k) == Get(k)) && Contents().Keys == LiveKeys()
    {
      forall k ensures InMap(Contents(), k) == Get(k) {
        ContentsAt(k);
      }
    }

    lemma LiveIsNotNil()
      requires Valid()
      ensures forall k :: k in Contents() ==> Contents()[k] != Nil
    {
      forall k | k in Contents() ensures Contents()[k] != Nil {
        ContentsAt(k);
      }
    }

    /** A whole sequence of assignments acts on the table exactly as it acts on the finite map. */
    method RawSetAll(ops: seq<(Value, Value)>) returns (r: Result<()>)
      requires Valid() && forall i :: 0 <= i < |ops| ==> Insertable(ops[i].0)
      modifies this`arr, this`node, this`lsizenode, this`isDummy, this`lastfree, this`flags, this`at
      ensures r.Ok? ==> Valid() && Contents() == PutAll(old(Contents()), ops)
    {
      var i := 0;
      while i < |ops|
        invariant 0 <= i <= |ops|
        invariant Valid() && PutAll(Contents(), ops[i..]) == PutAll(old(Contents()), ops)
      {
        r := RawSet(ops[i].0, ops[i].1);
        if r.Err? {
          return;
        }
        assert ops[i..][1..] == ops[i + 1..];
        i := i + 1;
      }
      r := Ok(());
    }

    /** removeentry (lgc.c): the collector marks the key of an empty entry as dead. */
    method RemoveEntry(p: nat)
      requires Valid() && p < |node| && node[p].val == Nil
      modifies this`node
      ensures Valid() && Contents() == old(Contents())
      ensures Stable(old(Snap()), Snap())
      ensures var key := old(node)[p].key;
              node == old(node)[p := old(node)[p].(key := if key.Str? || key.Object? then Dead(key) else key)]
    {
      if Collectable(node[p].key) {
        ghost var was := node;
        node := node[p := node[p].(key := Dead(node[p].key))];
        KillKeepsShape(hash, was, at, p);
        forall k ensures NodeValue(node, k) == NodeValue(was, k) {
          assert forall q :: LiveAt(was, k, q) <==> LiveAt(node, k, q);
          SameLive(hash, was, at, node, at, k);
        }
        SameLiveKeys(was, node);
      }
    }

    // -------------------------------------------------------------------------
    // Traversal
    // -------------------------------------------------------------------------

    ghost function Snap(): Snapshot
      reads this
    {
      Snapshot(arr, node, at)
    }

    /** findindex: the position of a key in the traversal order; dead keys are still found. */
    method FindIndex(key: Value) returns (r: Result<int>)
      requires Valid() && !key.Dead?
      ensures r.Ok? ==> IndexOf(Snap(), key, r.value)
      ensures r.Err? ==> r.error == InvalidKeyToNext && key != Nil && forall i :: !IndexOf(Snap(), key, i)
    {
      if key == Nil {
        return Ok(-1);
      }
      if InArray(arr, key) {
        return Ok(key.n - 1);
      }
      var n: int := MainPosition(hash, |node|, key);
      forall p | 0 <= p < |node| && Base(node[p].key) == key ensures Reaches(at, n, p) {
        assert PlacedOk(hash, node, at, p);
      }
      while n != -1
        invariant -1 <= n < |node|
        invariant n == -1 ==> forall p :: 0 <= p < |node| ==> Base(node[p].key) != key
        invariant n != -1 ==> forall p :: 0 <= p < |node| && Base(node[p].key) == key ==> Reaches(at, n, p)
        decreases if n == -1 then {} else Rest(n)
      {
        if Base(node[n].key) == key {
          forall q | 0 <= q < |node| && q != n && Base(node[q].key) == key ensures at.pos[n] < at.pos[q] {
            assert NoSkip(node, at, n, q);
          }
          return Ok(|arr| + n);
        }
        assert LinkOk(node, at, n);
        forall p | 0 <= p < |node| && Base(node[p].key) == key
          ensures node[n].next != -1 && Reaches(at, node[n].next, p)
        {
          assert Reaches(at, n, p) && NoSkip(node, at, n, p);
        }
        if node[n].next != -1 {
          assert n in Rest(n) && n !in Rest(node[n].next);
        } else {
          assert n in Rest(n);
        }
        n := node[n].next;
      }
      r := Err(InvalidKeyToNext);
    }

    /** luaH_next: the first live entry after the given key; None when there is none. */
    method LuaHNext(key: Value) returns (r: Result<Next>)
      requires Valid() && !key.Dead?
      ensures r.Ok? ==> NextStep(Snap(), key, r.value)
      ensures r.Err? ==> key != Nil && forall i :: !IndexOf(Snap(), key, i)
    {
      var f := FindIndex(key);
      if f.Err? {
        return Err(f.error);
      }
      var i := f.value + 1;
      while i < |arr|
        invariant f.value < i
        invariant forall j :: f.value < j < i && j < |arr| + |node| ==> ValueAt(Snap(), j) == Nil
      {
        if arr[i] != Nil {
          return Ok(Entry(Integer(i + 1), arr[i], i));
        }
        i := i + 1;
      }
      i := i - |arr|;
      while i < |node|
        invariant 0 <= i && f.value < i + |arr|
        invariant forall j :: f.value < j < i + |arr| && j < |arr| + |node| ==> ValueAt(Snap(), j) == Nil
      {
        if node[i].val != Nil {
          assert KeyOk(node, i);
          return Ok(Entry(node[i].key, node[i].val, i + |arr|));
        }
        i := i + 1;
      }
      r := Ok(Finished);
    }

    // -------------------------------------------------------------------------
    // Length
    // -------------------------------------------------------------------------

    /** A border: t[n] is non-nil (or n is 0) and t[n+1] is nil. */
    ghost predicate Border(n: int)
      reads this
    {
      n >= 0 && (n == 0 || Get(Integer(n)) != Nil) && Get(Integer(n + 1)) == Nil
    }

    method GetNum(j: int) returns (v: Value)
      requires Valid()
      ensures v == Get(Integer(j))
    {
      var s := LuaHGetNum(j);
      v := Read(s, Integer(j));
    }

    lemma {:induction false} PrefixBounded(i: nat, K: set<Value>)
      requires Valid() && (forall j :: 1 <= j <= i ==> Get(Integer(j)) != Nil)
      requires K == set j | 1 <= j <= i :: Integer(j)
      ensures K <= LiveKeys() && |K| == i
    {
      forall k | k in K ensures k in LiveKeys() {
        ContentsAt(k);
      }
      IntegersCount(i, K);
    }

    method UnboundSearch(j0: nat) returns (n: int)
      requires Valid() && (j0 == 0 || Get(Integer(j0)) != Nil)
      ensures Border(n)
    {
      var i, j := j0, j0 + 1;
      var v := GetNum(j);
      while v != Nil
        invariant 0 <= i < j && (i == 0 || Get(Integer(i)) != Nil) && v == Get(Integer(j))
        decreases INTMAX - j
      {
        i := j;
        j := j * 2;
        if j > INTMAX {
          n := LinearSearch();
          return;
        }
        v := GetNum(j);
      }
      n := BinarySearch(i, j);
    }

    /** The fallback of unbound_search for tables built with bad purposes. */
    method LinearSearch() returns (n: int)
      requires Valid()
      ensures Border(n)
    {
      var i := 1;
      var v := GetNum(i);
      while v != Nil
        invariant i >= 1 && v == Get(Integer(i))
        invariant forall k :: 1 <= k < i ==> Get(Integer(k)) != Nil
        decreases |LiveKeys()| + 1 - i + (if v != Nil then 1 else 0)
      {
        ghost var K := set k | 1 <= k <= i :: Integer(k);
        PrefixBounded(i, K);
        Subset(K, LiveKeys());
        i := i + 1;
        v := GetNum(i);
      }
      n := i - 1;
    }

    method BinarySearch(i0: int, j0: int) returns (n: int)
      requires Valid() && 0 <= i0 < j0 && (i0 == 0 || Get(Integer(i0)) != Nil) && Get(Integer(j0)) == Nil
      ensures Border(n)
    {
      var i, j := i0, j0;
      while j - i > 1
        invariant 0 <= i < j && (i == 0 || Get(Integer(i)) != Nil) && Get(Integer(j)) == Nil
      {
        var m := (i + j) / 2;
        var v := GetNum(m);
        if v == Nil {
          j := m;
        } else {
          i := m;
        }
      }
      n := i;
    }

    /** luaH_getn: finds a border. */
    method LuaHGetN() returns (n: int)
      requires Valid()
      ensures Border(n)
    {
      var j := |arr|;
      if j > 0 && arr[j - 1] == Nil {
        n := BinarySearch(0, j);
      } else if isDummy {
        n := j;
      } else {
        n := UnboundSearch(j);
      }
    }
  }

  lemma {:induction false} IntegersCount(i: nat, K: set<Value>)
    requires K == set j | 1 <= j <= i :: Integer(j)
    ensures |K| == i
  {
    if i > 0 {
      var K' := set j | 1 <= j <= i - 1 :: Integer(j);
      IntegersCount(i - 1, K');
      assert K == K' + {Integer(i)};
    }
  }

  /** The operation of a table on the finite map it stands for: storing nil removes the key. */
  function Put(m: map<Value, Value>, key: Value, v: Value): map<Value, Value> {
    if v == Nil then m - {key} else m[key := v]
  }

  ghost function InMap(m: map<Value, Value>, k: Value): Value {
    if k in m then m[k] else Nil
  }

  lemma PutAgrees(m: map<Value, Value>, m': map<Value, Value>, key: Value, v: Value)
    requires (forall k :: k in m ==> m[k] != Nil) && forall k :: k in m' ==> m'[k] != Nil
    requires forall k :: InMap(m', k) == if k == key then v else InMap(m, k)
    ensures m' == Put(m, key, v)
  {
    forall k ensures k in m' <==> k in Put(m, key, v) {
      assert InMap(m', k) == if k == key then v else InMap(m, k);
    }
    forall k | k in m' ensures m'[k] == Put(m, key, v)[k] {
      assert InMap(m', k) == if k == key then v else InMap(m, k);
    }
  }

  function PutAll(m: map<Value, Value>, ops: seq<(Value, Value)>): map<Value, Value>
    decreases |ops|
  {
    if ops == [] then m else PutAll(Put(m, ops[0].0, ops[0].1), ops[1..])
  }

  lemma KillKeepsShape(hash: Value -> nat, node: seq<Node>, at: Layout, p: nat)
    requires WellFormed(hash, node, at) && p < |node| && node[p].val == Nil && Collectable(node[p].key)
    ensures WellFormed(hash, node[p := node[p].(key := Dead(node[p].key))], at)
  {
    var node' := node[p := node[p].(key := Dead(node[p].key))];
    forall q ensures LinkOk(node', at, q) && KeyOk(node', q) && UnusedOk(node', at, q) {
      assert LinkOk(node, at, q) && KeyOk(node, q) && UnusedOk(node, at, q);
    }
    forall q ensures PlacedOk(hash, node', at, q) {
      assert PlacedOk(hash, node, at, q);
    }
    forall q, r ensures NoSkip(node', at, q, r) && DistinctOk(node', at, q, r) {
      assert NoSkip(node, at, q, r) && DistinctOk(node, at, q, r);
    }
  }

  // ---------------------------------------------------------------------------
  // Traversal (Lua 5.1 Reference Manual, section 5.1, `next`)
  // ---------------------------------------------------------------------------

  datatype Snapshot = Snapshot(arr: seq<Value>, node: seq<Node>, at: Layout) {
    function Size(): nat {
      |arr| + |node|
    }
  }

  /** The answer of luaH_next; `index` is the place of the entry in the traversal order. */
  datatype Next = Finished | Entry(key: Value, val: Value, index: int)

  function KeyAt(s: Snapshot, i: int): Value
    requires 0 <= i < s.Size()
  {
    if i < |s.arr| then Integer(i + 1) else s.node[i - |s.arr|].key
  }

  function ValueAt(s: Snapshot, i: int): Value
    requires 0 <= i < s.Size()
  {
    if i < |s.arr| then s.arr[i] else s.node[i - |s.arr|].val
  }

  /** Where findindex finds the key: among nodes with the same (possibly dead) key, the first of the chain. */
  ghost predicate IndexOf(s: Snapshot, key: Value, i: int) {
    if key == Nil then i == -1
    else if InArray(s.arr, key) then i == key.n - 1
    else
      && |s.at.pos| == |s.node| && |s.arr| <= i < s.Size()
      && Base(KeyAt(s, i)) == key
      && forall q :: 0 <= q < |s.node| && q != i - |s.arr| && Base(s.node[q].key) == key ==>
           s.at.pos[i - |s.arr|] < s.at.pos[q]
  }

  /** The relation computed by luaH_next. */
  ghost predicate NextStep(s: Snapshot, key: Value, r: Next) {
    exists i :: IndexOf(s, key, i) && FirstLiveAfter(s, i, r)
  }

  ghost predicate FirstLiveAfter(s: Snapshot, i: int, r: Next) {
    match r
    case Finished => i >= -1 && forall j :: i < j < s.Size() ==> ValueAt(s, j) == Nil
    case Entry(key, val, index) =>
      && -1 <= i < index < s.Size() && key == KeyAt(s, index) && val == ValueAt(s, index) && val != Nil
      && forall j :: i < j < index ==> ValueAt(s, j) == Nil
  }

  ghost predicate ProperSnapshot(hash: Value -> nat, s: Snapshot) {
    WellFormed(hash, s.node, s.at) && OutsideArray(s.arr, s.node)
  }

  /** What may happen between two calls of `next`: values are overwritten or set to nil, and the collector
      may kill the key of an empty entry; no key is inserted. */
  ghost predicate Stable(s: Snapshot, s': Snapshot) {
    && |s'.arr| == |s.arr| && |s'.node| == |s.node| && s'.at == s.at
    && forall p :: 0 <= p < |s.node| ==>
         (s'.node[p].key == s.node[p].key || (s'.node[p].key == Dead(s.node[p].key) && Collectable(s.node[p].key)))
  }

  /** findindex inverts: an entry returned as live is found again at the same index, as long as only values
      changed and keys died. */
  lemma FindIndexInverts(hash: Value -> nat, s: Snapshot, s': Snapshot, i: int)
    requires ProperSnapshot(hash, s) && ProperSnapshot(hash, s') && Stable(s, s')
    requires 0 <= i < s.Size() && ValueAt(s, i) != Nil
    ensures IndexOf(s', KeyAt(s, i), i)
    ensures forall j :: IndexOf(s', KeyAt(s, i), j) ==> j == i
  {
    if i >= |s.arr| {
      var p := i - |s.arr|;
      assert KeyOk(s.node, p);
      forall q | 0 <= q < |s.node| && q != p && Base(s'.node[q].key) == s.node[p].key
        ensures s.at.pos[p] < s.at.pos[q]
      {
        assert DistinctOk(s.node, s.at, p, q) && KeyOk(s.node, q);
      }
    }
  }

  /** A traversal: the answers r[0], r[1], ... of successive calls, each given the key of the previous
      answer and made in a later state of the table. */
  ghost predicate Traversal(hash: Value -> nat, s: seq<Snapshot>, r: seq<Next>) {
    |s| == |r| > 0 && forall i :: CallOk(hash, s, r, i)
  }

  ghost predicate CallOk(hash: Value -> nat, s: seq<Snapshot>, r: seq<Next>, i: int)
    requires |s| == |r|
  {
    0 <= i < |s| ==>
      && ProperSnapshot(hash, s[i]) && Stable(s[0], s[i])
      && if i == 0 then NextStep(s[0], Nil, r[0])
         else Stable(s[i - 1], s[i]) && r[i - 1].Entry? && NextStep(s[i], r[i - 1].key, r[i])
  }

  /** Successive answers come from strictly increasing places of the traversal order. */
  lemma TraversalStep(hash: Value -> nat, s: seq<Snapshot>, r: seq<Next>, i: nat)
    requires Traversal(hash, s, r) && 0 < i < |s|
    ensures r[i - 1].Entry? && FirstLiveAfter(s[i], r[i - 1].index, r[i])
    ensures r[i].Entry? ==> r[i - 1].index < r[i].index
  {
    assert CallOk(hash, s, r, i) && CallOk(hash, s, r, i - 1);
    EntryKey(hash, s, r, i - 1);
    FindIndexInverts(hash, s[i - 1], s[i], r[i - 1].index);
  }

  lemma EntryKey(hash: Value -> nat, s: seq<Snapshot>, r: seq<Next>, i: nat)
    requires Traversal(hash, s, r) && i < |s| && r[i].Entry?
    ensures 0 <= r[i].index < s[i].Size() == s[0].Size()
    ensures r[i].key == KeyAt(s[i], r[i].index) && ValueAt(s[i], r[i].index) != Nil
  {
    assert CallOk(hash, s, r, i);
  }

  lemma {:induction false} IndicesIncrease(hash: Value -> nat, s: seq<Snapshot>, r: seq<Next>, i: nat, j: nat)
    requires Traversal(hash, s, r) && i < j < |s|
    ensures r[i].Entry? && i <= r[i].index < s[0].Size()
    ensures r[j].Entry? ==> r[i].index < r[j].index
    decreases j
  {
    TraversalStep(hash, s, r, j);
    if i < j - 1 {
      IndicesIncrease(hash, s, r, i, j - 1);
    } else {
      EntryKey(hash, s, r, i);
      if i > 0 {
        IndicesIncrease(hash, s, r, i - 1, i);
      }
    }
  }

  /** No key is visited twice, and a traversal makes at most as many visits as there are slots. */
  lemma TraversalVisitsOnce(hash: Value -> nat, s: seq<Snapshot>, r: seq<Next>)
    requires Traversal(hash, s, r)
    ensures forall i, j :: 0 <= i < j < |s| && r[j].Entry? ==> r[i].Entry? && r[i].key != r[j].key
    ensures |s| <= s[0].Size() + 1
  {
    forall i, j | 0 <= i < j < |s| && r[j].Entry? ensures r[i].Entry? && r[i].key != r[j].key {
      IndicesIncrease(hash, s, r, i, j);
      EntryKey(hash, s, r, i);
      EntryKey(hash, s, r, j);
      assert CallOk(hash, s, r, i) && CallOk(hash, s, r, j) && CallOk(hash, s, r, 0);
      if r[i].key == r[j].key {
        SameKeySamePlace(hash, s[0], s[i], s[j], r[i].index, r[j].index);
      }
    }
    if |s| > 1 {
      IndicesIncrease(hash, s, r, |s| - 2, |s| - 1);
    }
  }

  lemma SameKeySamePlace(hash: Value -> nat, o: Snapshot, s: Snapshot, s': Snapshot, i: int, j: int)
    requires ProperSnapshot(hash, o) && ProperSnapshot(hash, s) && ProperSnapshot(hash, s') && Stable(o, s) && Stable(o, s')
    requires 0 <= i < s.Size() && 0 <= j < s'.Size() && ValueAt(s, i) != Nil && ValueAt(s', j) != Nil
    requires KeyAt(s, i) == KeyAt(s', j)
    ensures i == j
  {
    if i >= |s.arr| && j >= |s.arr| {
      var p, q := i - |s.arr|, j - |s.arr|;
      assert KeyOk(s.node, p) && KeyOk(s'.node, q) && KeyOk(o.node, p) && KeyOk(o.node, q);
      OneNodePerKey(o.node, o.at, p, q);
    }
  }

  /** A finished traversal has visited every key that stayed live throughout. */
  lemma TraversalVisitsAll(hash: Value -> nat, s: seq<Snapshot>, r: seq<Next>, m: int)
    requires Traversal(hash, s, r) && r[|r| - 1] == Finished
    requires 0 <= m < s[0].Size() && forall i :: 0 <= i < |s| ==> s[i].Size() == s[0].Size() && ValueAt(s[i], m) != Nil
    ensures exists i :: 0 <= i < |r| && r[i].Entry? && r[i].index == m && r[i].key == KeyAt(s[i], m)
  {
    if forall i :: 0 <= i < |r| && r[i].Entry? ==> r[i].index != m {
      StaysBelow(hash, s, r, m, |r| - 1);
    } else {
      var i :| 0 <= i < |r| && r[i].Entry? && r[i].index == m;
      EntryKey(hash, s, r, i);
    }
  }

  lemma {:induction false} StaysBelow(hash: Value -> nat, s: seq<Snapshot>, r: seq<Next>, m: int, i: nat)
    requires Traversal(hash, s, r) && i < |r|
    requires 0 <= m < s[0].Size() && forall i :: 0 <= i < |s| ==> s[i].Size() == s[0].Size() && ValueAt(s[i], m) != Nil
    requires forall i :: 0 <= i < |r| && r[i].Entry? ==> r[i].index != m
    ensures r[i].Entry? && r[i].index < m
  {
    assert s[i].Size() == s[0].Size() && ValueAt(s[i], m) != Nil;
    if i > 0 {
      StaysBelow(hash, s, r, m, i - 1);
      TraversalStep(hash, s, r, i);
    } else {
      assert CallOk(hash, s, r, 0);
    }
  }

  lemma {:induction false} LiveNodeKeysBound(node: seq<Node>, i: nat)
    requires i <= |node|
    ensures |LiveNodeKeys(node[..i])| <= i
  {
    if i == 0 {
      assert LiveNodeKeys(node[..0]) == {};
    } else {
      LiveNodeKeysBound(node, i - 1);
      var l, l' := LiveNodeKeys(node[..i - 1]), LiveNodeKeys(node[..i]);
      forall k | k in l' ensures k in l + {node[i - 1].key} {
        var p :| 0 <= p < i && node[..i][p].val != Nil && node[..i][p].key == k;
        assert p < i - 1 ==> node[..i - 1][p] == node[p];
      }
      Subset(l', l + {node[i - 1].key});
    }
  }

  lemma WriteKeepsShape(hash: Value -> nat, node: seq<Node>, at: Layout, p: nat, v: Value)
    requires WellFormed(hash, node, at) && p < |node| && Insertable(node[p].key)
    ensures WellFormed(hash, node[p := node[p].(val := v)], at)
  {
    var node' := node[p := node[p].(val := v)];
    forall q ensures LinkOk(node', at, q) && KeyOk(node', q) && UnusedOk(node', at, q) {
      assert LinkOk(node, at, q) && KeyOk(node, q) && UnusedOk(node, at, q);
    }
    forall q ensures PlacedOk(hash, node', at, q) {
      assert PlacedOk(hash, node, at, q);
    }
    forall q, r ensures NoSkip(node', at, q, r) && DistinctOk(node', at, q, r) {
      assert NoSkip(node, at, q, r) && DistinctOk(node, at, q, r);
    }
  }
}
