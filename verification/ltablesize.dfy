/** The counting argument behind `rehash` (ltable.c): how many integer keys lie in each slice
    (2^(i-1), 2^i], and which power of two is the best size for the array part. */
module TableSizes {
  import opened LuaObject

  const MAXBITS: nat := 26
  const MAXASIZE: nat := 0x400_0000

  lemma MaxSize()
    ensures Pow2(MAXBITS) == MAXASIZE
  {
    assert Pow2(4) == 16;
    assert Pow2(8) == 256 by { assert Pow2(6) == 64; }
    assert Pow2(12) == 4096 by { assert Pow2(10) == 1024; }
    assert Pow2(16) == 65536 by { assert Pow2(14) == 16384; }
    assert Pow2(20) == 1048576 by { assert Pow2(18) == 262144; }
    assert Pow2(24) == 16777216 by { assert Pow2(22) == 4194304; }
  }

  /** The integer keys of K in (lo, hi]. */
  ghost function Between(K: set<Value>, lo: int, hi: int): set<Value> {
    set k | k in K && k.Integer? && lo < k.n <= hi
  }

  function Low(i: nat): nat {
    if i == 0 then 0 else Pow2(i - 1)
  }

  ghost function Slice(K: set<Value>, i: nat): set<Value> {
    Between(K, Low(i), Pow2(i))
  }

  /** nums[i] counts the keys of K in the i-th slice. */
  ghost predicate Tally(nums: seq<int>, K: set<Value>) {
    |nums| == MAXBITS + 1 && forall i :: 0 <= i <= MAXBITS ==> nums[i] == |Slice(K, i)|
  }

  lemma BetweenSplit(K: set<Value>, a: int, b: int, c: int)
    requires a <= b <= c
    ensures |Between(K, a, c)| == |Between(K, a, b)| + |Between(K, b, c)|
  {
    assert Between(K, a, c) == Between(K, a, b) + Between(K, b, c);
    assert Between(K, a, b) !! Between(K, b, c);
  }

  /** At most one key for each of the integers lo+1 .. hi. */
  lemma {:induction false} BetweenBound(K: set<Value>, lo: int, hi: int)
    requires lo <= hi
    ensures |Between(K, lo, hi)| <= hi - lo
    decreases hi - lo
  {
    if lo == hi {
      assert Between(K, lo, hi) == {};
    } else {
      BetweenBound(K, lo, hi - 1);
      assert Between(K, lo, hi) <= Between(K, lo, hi - 1) + {Integer(hi)};
      Subset(Between(K, lo, hi), Between(K, lo, hi - 1) + {Integer(hi)});
    }
  }

  lemma {:induction false} Subset<T>(a: set<T>, b: set<T>)
    requires a <= b
    ensures |a| <= |b|
  {
    if a != {} {
      var x :| x in a;
      Subset(a - {x}, b - {x});
    }
  }

  /** Adding one integer key moves exactly one count: that of the slice ceillog2 of the key. */
  lemma TallyAdd(nums: seq<int>, K: set<Value>, k: Value, e: nat)
    requires Tally(nums, K) && k !in K && k.Integer? && 1 <= k.n
    requires IsCeilLog2(k.n, e) && e <= MAXBITS
    ensures Tally(nums[e := nums[e] + 1], K + {k})
  {
    forall i | 0 <= i <= MAXBITS
      ensures nums[e := nums[e] + 1][i] == |Slice(K + {k}, i)|
    {
      if i == e {
        assert Slice(K + {k}, i) == Slice(K, i) + {k};
      } else {
        if Low(i) < k.n <= Pow2(i) {
          CeilLog2Unique(k.n, i, e);
        }
        assert Slice(K + {k}, i) == Slice(K, i);
      }
    }
  }

  /** Keys outside 1..MAXASIZE are not counted. */
  lemma TallySkip(nums: seq<int>, K: set<Value>, k: Value)
    requires Tally(nums, K) && !(k.Integer? && 1 <= k.n <= MAXASIZE)
    ensures Tally(nums, K + {k})
    ensures Between(K + {k}, 0, MAXASIZE) == Between(K, 0, MAXASIZE)
  {
    forall i | 0 <= i <= MAXBITS
      ensures nums[i] == |Slice(K + {k}, i)|
    {
      MaxSize();
      Pow2Monotone(i, MAXBITS);
      assert Slice(K + {k}, i) == Slice(K, i);
    }
  }

  /** countint: counts the key if it is an appropriate array index. */
  method CountInt(key: Value, nums: array<int>, ghost K: set<Value>) returns (counted: int)
    requires nums.Length == MAXBITS + 1 && Tally(nums[..], K) && key !in K
    modifies nums
    ensures Tally(nums[..], K + {key})
    ensures counted == |Between(K + {key}, 0, MAXASIZE)| - |Between(K, 0, MAXASIZE)|
  {
    if key.Integer? && 0 < key.n <= MAXASIZE {
      var e := CeilLog2(key.n);
      MaxSize();
      if e > MAXBITS {
        Pow2Monotone(MAXBITS, e - 1);
      }
      TallyAdd(nums[..], K, key, e);
      ghost var was := nums[..];
      nums[e] := nums[e] + 1;
      assert nums[..] == was[e := was[e] + 1];
      assert Between(K + {key}, 0, MAXASIZE) == Between(K, 0, MAXASIZE) + {key};
      counted := 1;
    } else {
      TallySkip(nums[..], K, key);
      counted := 0;
    }
  }

  /** n is the largest power of two up to MAXASIZE such that more than n/2 of the keys 1..n are in use;
      0 if there is none. */
  ghost predicate BestSize(K: set<Value>, n: nat) {
    && (n == 0 || exists e: nat :: e <= MAXBITS && IsPowerSize(K, n, e))
    && forall e: nat :: e <= MAXBITS && n < Pow2(e) ==> !MoreThanHalf(K, e)
  }

  ghost predicate IsPowerSize(K: set<Value>, n: nat, e: nat) {
    n == Pow2(e) && MoreThanHalf(K, e)
  }

  ghost predicate MoreThanHalf(K: set<Value>, e: nat) {
    |Between(K, 0, Pow2(e))| > Pow2(e) / 2
  }

  /** The best size is unique: the predicate leaves no freedom. */
  lemma BestSizeUnique(K: set<Value>, m: nat, n: nat)
    requires BestSize(K, m) && BestSize(K, n)
    ensures m == n
  {
  }

  /** computesizes: from the slice counts and the number of integer keys to the size of the array part
      and the number of keys that will live in it. */
  method ComputeSizes(nums: array<int>, narray: int, ghost K: set<Value>) returns (n: nat, na: int)
    requires nums.Length == MAXBITS + 1 && Tally(nums[..], K)
    requires narray == |Between(K, 0, MAXASIZE)|
    ensures n <= MAXASIZE && BestSize(K, n) && na == |Between(K, 0, n)|
    ensures n / 2 <= na <= n
  {
    MaxSize();
    BetweenBound(K, 0, MAXASIZE);
    var i, twotoi, a: int := 0, 1, 0;
    n, na := 0, 0;
    assert Between(K, 0, 0) == {};
    while twotoi / 2 < narray
      invariant 0 <= i <= MAXBITS + 1 && twotoi == Pow2(i)
      invariant a == |Between(K, 0, Low(i))|
      invariant n <= MAXASIZE && na == |Between(K, 0, n)|
      invariant n == 0 || exists e: nat :: e < i && IsPowerSize(K, n, e)
      invariant forall e: nat :: e < i && n < Pow2(e) ==> !MoreThanHalf(K, e)
      decreases MAXBITS + 1 - i
    {
      assert i <= MAXBITS;
      BetweenSplit(K, 0, Low(i), Pow2(i));
      BetweenBound(K, 0, Low(i));
      ghost var n0 := n;
      if nums[i] > 0 {
        a := a + nums[i];
        if a > twotoi / 2 {
          Pow2Monotone(i, MAXBITS);
          n, na := twotoi, a;
          assert IsPowerSize(K, n, i);
        }
      }
      assert a == |Between(K, 0, Pow2(i))|;
      forall e: nat | e < i + 1 && n < Pow2(e) ensures !MoreThanHalf(K, e) {
        if e < i && n != n0 { Pow2Monotone(e, i); }
      }
      if a == narray {
        BetweenBound(K, 0, Pow2(i));
        break;
      }
      i, twotoi := i + 1, twotoi * 2;
    }
    forall e: nat | e <= MAXBITS && n < Pow2(e) ensures !MoreThanHalf(K, e) {
      if e >= i {
        Pow2Monotone(e, MAXBITS);
        assert Between(K, 0, Pow2(e)) <= Between(K, 0, MAXASIZE);
        Subset(Between(K, 0, Pow2(e)), Between(K, 0, MAXASIZE));
        Pow2Monotone(i, e);
        if i < e { Pow2Strict(i, e); }
      }
    }
    BetweenBound(K, 0, n);
  }
}
