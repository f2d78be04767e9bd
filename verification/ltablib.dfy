/** table.sort: bounded-depth quicksort on the array part of a table (ltablib.c). */
module LuaSort {
  import opened LuaObject

  /** What `sort` asks of an order function, section 5.5 of the Lua 5.1 Reference Manual: a strict
      order in which being incomparable is transitive. */
  ghost predicate StrictWeakOrder<T(!new)>(lt: (T, T) -> bool) {
    && (forall x :: !lt(x, x))
    && (forall x, y, z :: lt(x, y) && lt(y, z) ==> lt(x, z))
    && (forall x, y, z :: !lt(y, x) && !lt(z, y) ==> !lt(z, x))
  }

  /** x may stand before y. */
  predicate Le<T>(lt: (T, T) -> bool, x: T, y: T) {
    !lt(y, x)
  }

  lemma LeTrans<T(!new)>(lt: (T, T) -> bool, x: T, y: T, z: T)
    requires StrictWeakOrder(lt) && Le(lt, x, y) && Le(lt, y, z)
    ensures Le(lt, x, z)
  {
  }

  lemma LtLe<T(!new)>(lt: (T, T) -> bool, x: T, y: T)
    requires StrictWeakOrder(lt) && lt(x, y)
    ensures Le(lt, x, y)
  {
    assert lt(y, x) ==> lt(x, x);
  }

  lemma LeRefl<T(!new)>(lt: (T, T) -> bool, x: T)
    requires StrictWeakOrder(lt)
    ensures Le(lt, x, x)
  {
  }

  /** t is s with the elements of positions l to u rearranged, and nothing else touched. */
  ghost predicate Rearranged<T>(s: seq<T>, t: seq<T>, l: int, u: int) {
    && |s| == |t|
    && (forall k :: 0 <= k < |s| && !(l <= k <= u) ==> t[k] == s[k])
    && multiset(s) == multiset(t)
  }

  /** Positions p < q of [l0, u0] are in order unless both lie in [l, u]. */
  ghost predicate OrderedBut<T>(lt: (T, T) -> bool, s: seq<T>, l0: int, u0: int, l: int, u: int)
    requires 0 <= l0 && u0 < |s|
  {
    forall p, q :: l0 <= p < q <= u0 && !(l <= p && q <= u) ==> Le(lt, s[p], s[q])
  }

  ghost predicate Sorted<T>(lt: (T, T) -> bool, s: seq<T>, l: int, u: int)
    requires 0 <= l && u < |s|
  {
    forall p, q :: l <= p < q <= u ==> Le(lt, s[p], s[q])
  }

  /** Position i splits the segment around the element stored there. */
  ghost predicate SplitAt<T>(lt: (T, T) -> bool, s: seq<T>, l: int, u: int, i: int)
    requires 0 <= l <= i <= u < |s|
  {
    && (forall k :: l <= k < i ==> Le(lt, s[k], s[i]))
    && (forall k :: i < k <= u ==> Le(lt, s[i], s[k]))
  }

  lemma Unmoved<T>(s: seq<T>, l: int, u: int)
    ensures Rearranged(s, s, l, u)
  {
  }

  /** Rearrangements compose, also with one of a smaller segment. */
  lemma ThenRearranged<T>(s: seq<T>, t: seq<T>, r: seq<T>, l: int, u: int, j: int, k: int)
    requires Rearranged(s, t, l, u) && Rearranged(t, r, j, k)
    requires l <= j && k <= u
    ensures Rearranged(s, r, l, u)
  {
  }

  /** Every element of a rearranged segment was somewhere in the segment before. */
  lemma Origin<T>(s: seq<T>, t: seq<T>, l: int, u: int, k: int) returns (o: int)
    requires Rearranged(s, t, l, u)
    requires 0 <= l <= k <= u < |s|
    ensures l <= o <= u && s[o] == t[k]
  {
    hide Rearranged;
    SameSegment(s, t, l, u);
    o := InSegment(s[l..u + 1], t[l..u + 1], k - l);
    o := l + o;
  }

  lemma SameSegment<T>(s: seq<T>, t: seq<T>, l: int, u: int)
    requires Rearranged(s, t, l, u) && 0 <= l <= u < |s|
    ensures |t| == |s| && multiset(s[l..u + 1]) == multiset(t[l..u + 1])
  {
    assert t[..l] == s[..l] && t[u + 1..] == s[u + 1..];
    SegmentCounts(s, l, u);
    SegmentCounts(t, l, u);
  }

  lemma InSegment<T>(before: seq<T>, after: seq<T>, k: int) returns (d: int)
    requires multiset(before) == multiset(after) && 0 <= k < |after|
    ensures 0 <= d < |before| && before[d] == after[k]
  {
    assert after[k] in multiset(before);
    d :| 0 <= d < |before| && before[d] == after[k];
  }

  lemma SegmentCounts<T>(s: seq<T>, l: int, u: int)
    requires 0 <= l <= u < |s|
    ensures multiset(s[l..u + 1]) == multiset(s) - multiset(s[..l]) - multiset(s[u + 1..])
  {
    assert s == s[..l] + s[l..u + 1] + s[u + 1..];
    assert multiset(s) == multiset(s[..l]) + multiset(s[l..u + 1]) + multiset(s[u + 1..]);
  }

  /** Rearranging inside [l, u] keeps the order of every pair that is not inside. */
  lemma KeepOrderedBut<T>(lt: (T, T) -> bool, s: seq<T>, t: seq<T>, l0: int, u0: int, l: int, u: int)
    requires 0 <= l0 <= l && u <= u0 < |s|
    requires OrderedBut(lt, s, l0, u0, l, u) && Rearranged(s, t, l, u)
    ensures OrderedBut(lt, t, l0, u0, l, u)
  {
    forall p, q | l0 <= p < q <= u0 && !(l <= p && q <= u)
      ensures Le(lt, t[p], t[q])
    {
      if l <= p <= u {
        var o := Origin(s, t, l, u, p);
        assert Le(lt, s[o], s[q]);
      } else if l <= q <= u {
        var o := Origin(s, t, l, u, q);
        assert Le(lt, s[p], s[o]);
      } else {
        assert Le(lt, s[p], s[q]);
      }
    }
  }

  /** A step inside the open segment keeps what the rounds before it have established. */
  lemma Inside<T>(lt: (T, T) -> bool, was: seq<T>, s: seq<T>, t: seq<T>, l0: int, u0: int, l: int, u: int)
    requires 0 <= l0 <= l && u <= u0 < |s|
    requires OrderedBut(lt, s, l0, u0, l, u) && Rearranged(s, t, l, u) && Rearranged(was, s, l0, u0)
    ensures OrderedBut(lt, t, l0, u0, l, u) && Rearranged(was, t, l0, u0)
  {
    KeepOrderedBut(lt, s, t, l0, u0, l, u);
    ThenRearranged(was, s, t, l0, u0, l, u);
  }

  /** Rearranging one side of a split keeps the split. */
  lemma KeepSplit<T>(lt: (T, T) -> bool, s: seq<T>, t: seq<T>, l: int, u: int, i: int, j: int, k: int)
    requires 0 <= l <= i <= u < |s|
    requires SplitAt(lt, s, l, u, i)
    requires l <= j && k <= u && !(j <= i <= k) && Rearranged(s, t, j, k)
    ensures SplitAt(lt, t, l, u, i)
  {
    forall m | l <= m <= u && m != i
      ensures if m < i then Le(lt, t[m], t[i]) else Le(lt, t[i], t[m])
    {
      if j <= m <= k {
        var o := Origin(s, t, j, k, m);
        assert s[o] == t[m];
      }
    }
  }

  /** A split segment with both sides in order, and the rest in order around it, is in order: what
      remains to be sorted shrinks from [l, u] to the side not yet done. */
  lemma OneSideDone<T(!new)>(lt: (T, T) -> bool, s: seq<T>, l0: int, u0: int, l: int, u: int, i: int,
                             left: bool)
    requires StrictWeakOrder(lt)
    requires 0 <= l0 <= l <= i <= u <= u0 < |s|
    requires OrderedBut(lt, s, l0, u0, l, u) && SplitAt(lt, s, l, u, i)
    requires if left then Sorted(lt, s, l, i - 1) else Sorted(lt, s, i + 1, u)
    ensures if left then OrderedBut(lt, s, l0, u0, i + 1, u) else OrderedBut(lt, s, l0, u0, l, i - 1)
  {
    forall p, q | l0 <= p < q <= u0 && !(if left then i + 1 <= p && q <= u else l <= p && q <= i - 1)
      ensures Le(lt, s[p], s[q])
    {
      if l <= p && q <= u {
        if p < i < q {
          LeTrans(lt, s[p], s[i], s[q]);
        }
      }
    }
  }

  lemma Unsorted<T>(lt: (T, T) -> bool, s: seq<T>, l: int, u: int)
    requires 0 <= l && u < |s|
    ensures OrderedBut(lt, s, l, u, l, u)
  {
  }

  /** Nothing is left to do when the open segment has at most three elements, in order. */
  lemma FewSorted<T>(lt: (T, T) -> bool, s: seq<T>, l0: int, u0: int, l: int, u: int)
    requires 0 <= l0 <= l && u <= u0 < |s| && u - l <= 2
    requires OrderedBut(lt, s, l0, u0, l, u)
    requires l < u ==> Le(lt, s[l], s[u])
    requires u - l == 2 ==> Le(lt, s[l], s[l + 1]) && Le(lt, s[l + 1], s[u])
    ensures Sorted(lt, s, l0, u0)
  {
  }

  /** Two reads and set2: exchanges a[i] and a[j], a rearrangement of any segment holding both. */
  method Swap<T>(a: array<T>, i: int, j: int, ghost was: seq<T>, ghost l: int, ghost u: int)
    requires 0 <= l <= i <= u < a.Length && l <= j <= u
    requires Rearranged(was, a[..], l, u)
    modifies a
    ensures a[i] == old(a[j]) && a[j] == old(a[i])
    ensures forall k :: 0 <= k < a.Length && k != i && k != j ==> a[k] == old(a[k])
    ensures Rearranged(was, a[..], l, u)
  {
    a[i], a[j] := a[j], a[i];
    assert a[..] == old(a[..])[i := old(a[j])][j := old(a[i])];
  }

  /** The opening of a round: puts a[l], a[i] and a[u] in order, i the middle position (l + u) / 2.
      Segments of two or three elements are sorted by it. */
  method OrderThree<T(!new)>(a: array<T>, l: int, u: int, lt: (T, T) -> bool) returns (i: int)
    requires StrictWeakOrder(lt)
    requires 0 <= l < u < a.Length
    modifies a
    ensures i == (l + u) / 2
    ensures Rearranged(old(a[..]), a[..], l, u)
    ensures Le(lt, a[l], a[u])
    ensures u - l > 1 ==> l < i < u && Le(lt, a[l], a[i]) && Le(lt, a[i], a[u])
  {
    hide StrictWeakOrder, Rearranged;
    ghost var was := a[..];
    Unmoved(was, l, u);
    i := (l + u) / 2;
    if lt(a[u], a[l]) {
      LtLe(lt, a[u], a[l]);
      Swap(a, l, u, was, l, u);
    }
    if u - l == 1 {
      return;
    }
    if lt(a[i], a[l]) {
      LtLe(lt, a[i], a[l]);
      LeTrans(lt, a[i], a[l], a[u]);
      Swap(a, i, l, was, l, u);
    } else if lt(a[u], a[i]) {
      LtLe(lt, a[u], a[i]);
      Swap(a, i, u, was, l, u);
    }
  }

  /** The scan from the left, over elements less than the pivot, and its test for running out of the segment. */
  method ScanUp<T(!new)>(a: array<T>, ghost l: int, i0: int, ghost j: int, u: int, pivot: T, lt: (T, T) -> bool) returns (i: int, invalid: bool)
    requires StrictWeakOrder(lt) && 0 <= l <= i0 <= j <= u - 1 < a.Length - 1 && (i0 < j || j < u - 1)
    requires (forall k :: l <= k <= i0 ==> Le(lt, a[k], pivot)) && forall k :: j <= k <= u ==> Le(lt, pivot, a[k])
    ensures !invalid && i0 < i <= j + 1 && i <= u - 1 && !lt(a[i], pivot) && forall k :: l <= k < i ==> Le(lt, a[k], pivot)
  {
    hide StrictWeakOrder;
    i, invalid := i0 + 1, false;
    while lt(a[i], pivot)
      invariant !invalid && i0 < i <= j + 1 && i <= u - 1
      invariant forall k :: l <= k < i ==> Le(lt, a[k], pivot)
      decreases u - i
    {
      assert !Le(lt, pivot, a[i]);
      LtLe(lt, a[i], pivot);
      invalid := invalid || i > u;
      i := i + 1;
    }
  }

  /** The scan from the right, over elements greater than the pivot. */
  method ScanDown<T(!new)>(a: array<T>, l: int, ghost i0: int, j0: int, u: int, pivot: T, lt: (T, T) -> bool) returns (j: int, invalid: bool)
    requires StrictWeakOrder(lt) && 0 <= l <= i0 <= j0 <= u - 1 < a.Length - 1 && (i0 < j0 || l < i0)
    requires (forall k :: l <= k <= i0 ==> Le(lt, a[k], pivot)) && forall k :: j0 <= k <= u ==> Le(lt, pivot, a[k])
    ensures !invalid && l <= j < j0 && i0 - 1 <= j && !lt(pivot, a[j]) && forall k :: j < k <= u ==> Le(lt, pivot, a[k])
  {
    hide StrictWeakOrder;
    j, invalid := j0 - 1, false;
    while lt(pivot, a[j])
      invariant !invalid && l <= j < j0 && i0 - 1 <= j
      invariant forall k :: j < k <= u ==> Le(lt, pivot, a[k])
      decreases j
    {
      assert !Le(lt, a[j], pivot);
      LtLe(lt, pivot, a[j]);
      invalid := invalid || j < l;
      j := j - 1;
    }
  }

  /** The scan loop: the pivot, the median found by OrderThree, is parked in a[u-1]; i and j run
      towards each other and the pivot ends at i.  `invalid` is what the two tests for "invalid order
      function" find: both scans stay inside the segment, so neither ever fires. */
  method Partition<T(!new)>(a: array<T>, l: int, u: int, m: int, lt: (T, T) -> bool)
    returns (i: int, invalid: bool)
    requires StrictWeakOrder(lt)
    requires 0 <= l < m < u < a.Length && u - l > 2 && m == (l + u) / 2
    requires Le(lt, a[l], a[m]) && Le(lt, a[m], a[u])
    modifies a
    ensures l < i < u && !invalid
    ensures Rearranged(old(a[..]), a[..], l, u)
    ensures SplitAt(lt, a[..], l, u, i)
  {
    hide StrictWeakOrder, Rearranged;
    ghost var was := a[..];
    Unmoved(was, l, u);
    var pivot := a[m];
    Swap(a, m, u - 1, was, l, u);
    LeRefl(lt, pivot);
    i, invalid := l, false;
    var j := u - 1;
    while true
      invariant !invalid && l <= i <= j <= u - 1
      invariant i < j || (l < i && j < u - 1)
      invariant a[u - 1] == pivot
      invariant Rearranged(was, a[..], l, u)
      invariant forall k :: l <= k <= i ==> Le(lt, a[k], pivot)
      invariant forall k :: j <= k <= u ==> Le(lt, pivot, a[k])
      decreases j - i
    {
      ghost var i0 := i;
      var up, down;
      i, up := ScanUp(a, l, i, j, u, pivot, lt);
      j, down := ScanDown(a, l, i0, j, u, pivot, lt);
      invalid := up || down;
      if j < i {
        break;
      }
      Swap(a, i, j, was, l, u);
    }
    Swap(a, u - 1, i, was, l, u);
  }

  /** auxsort: for any strict weak order the segment ends sorted, a permutation of what it held, with
      nothing outside it touched; `depth` is how deep the recursive calls nest. */
  method AuxSort<T(!new)>(a: array<T>, l0: int, u0: int, lt: (T, T) -> bool) returns (ghost depth: nat)
    requires StrictWeakOrder(lt)
    requires 0 <= l0 <= u0 + 1 <= a.Length
    modifies a
    ensures Sorted(lt, a[..], l0, u0)
    ensures Rearranged(old(a[..]), a[..], l0, u0)
    ensures l0 <= u0 ==> Pow2(depth) <= u0 - l0 + 1
    ensures l0 > u0 ==> depth == 0
    decreases u0 - l0 + 1
  {
    hide StrictWeakOrder, Rearranged, OrderedBut, SplitAt, Sorted;
    ghost var was := a[..];
    Unmoved(was, l0, u0);
    Unsorted(lt, was, l0, u0);
    var l, u := l0, u0;
    depth := 0;
    while l < u
      invariant l0 <= l && u <= u0 && l <= u + 1
      invariant OrderedBut(lt, a[..], l0, u0, l, u)
      invariant Rearranged(was, a[..], l0, u0)
      invariant l0 <= u0 ==> Pow2(depth) <= u0 - l0 + 1
      invariant l0 > u0 ==> depth == 0
      decreases u - l + 1
    {
      ghost var s0 := a[..];
      var i := OrderThree(a, l, u, lt);
      ghost var s1 := a[..];
      Inside(lt, was, s0, s1, l0, u0, l, u);
      if u - l <= 2 {
        FewSorted(lt, s1, l0, u0, l, u);
        return;
      }
      var invalid;
      i, invalid := Partition(a, l, u, i, lt);
      ghost var s2, l1, u1, pivot := a[..], l, u, i;
      Inside(lt, was, s1, s2, l0, u0, l, u);
      var j: int;
      if i - l < u - i {
        j := l;
        i := i - 1;
        l := i + 2;
      } else {
        j := i + 1;
        i := u;
        u := j - 2;
      }
      ghost var d := AuxSort(a, j, i, lt);
      depth := if d + 1 > depth then d + 1 else depth;
      ghost var s3 := a[..];
      KeepSplit(lt, s2, s3, l1, u1, pivot, j, i);
      Unmoved(s2, l1, u1);
      ThenRearranged(s2, s2, s3, l1, u1, j, i);
      Inside(lt, was, s2, s3, l0, u0, l1, u1);
      OneSideDone(lt, s3, l0, u0, l1, u1, pivot, j == l1);
    }
    FewSorted(lt, a[..], l0, u0, l, u);
  }
}
