/** Values and binary logarithms (lobject.c). */
module LuaObject {

  /** The tagged values a table can hold.  `Integer` stands for every number that equals its own
      conversion to an int, `Float` for all other numbers, `Dead` for a key whose tag the collector
      replaced by LUA_TDEADKEY. */
  datatype Value =
    | Nil
    | Boolean(b: bool)
    | Integer(n: int)
    | Float(f: nat)
    | Light(p: nat)
    | Str(s: nat)
    | Object(o: nat)
    | Dead(of: Value)

  predicate Collectable(v: Value) {
    v.Str? || v.Object?
  }

  function Pow2(n: nat): (r: nat)
    ensures r >= 1
  {
    if n == 0 then 1 else 2 * Pow2(n - 1)
  }

  lemma {:induction false} Pow2Monotone(m: nat, n: nat)
    requires m <= n
    ensures Pow2(m) <= Pow2(n)
    decreases n - m
  {
    if m < n {
      Pow2Monotone(m, n - 1);
    }
  }

  /** Strictly larger exponents give powers at least twice as large. */
  lemma Pow2Strict(m: nat, n: nat)
    requires m < n
    ensures 2 * Pow2(m) <= Pow2(n)
  {
    Pow2Monotone(m + 1, n);
  }

  /** Number of bits in the binary representation of x; 0 for 0. */
  function BitLen(x: nat): nat {
    if x == 0 then 0 else 1 + BitLen(x / 2)
  }

  lemma {:induction false} BitLenBounds(x: nat)
    ensures x < Pow2(BitLen(x))
    ensures x > 0 ==> BitLen(x) > 0 && Pow2(BitLen(x) - 1) <= x
  {
    if x > 0 {
      BitLenBounds(x / 2);
    }
  }

  lemma {:induction false} BitLenNibble(x: nat)
    requires x >= 16
    ensures BitLen(x) == 4 + BitLen(x / 16)
  {
    assert BitLen(x) == 1 + BitLen(x / 2);
    assert BitLen(x / 2) == 1 + BitLen(x / 4);
    assert BitLen(x / 4) == 1 + BitLen(x / 8);
    assert BitLen(x / 8) == 1 + BitLen(x / 16);
  }

  lemma BitLenByte(x: nat)
    requires x >= 256
    ensures BitLen(x) == 8 + BitLen(x / 256)
  {
    BitLenNibble(x);
    BitLenNibble(x / 16);
    assert x / 16 / 16 == x / 256;
  }

  /** luaO_log2: bytes first, then one table entry; the table holds the bit length of each byte. */
  method Log2(n: nat) returns (l: int)
    ensures l == BitLen(n) - 1
  {
    var x := n;
    l := -1;
    while x >= 256
      invariant l + BitLen(x) == BitLen(n) - 1
    {
      BitLenByte(x);
      l := l + 8;
      x := x / 256;
    }
    l := l + BitLen(x);
  }

  /** ceillog2(x): the exponent of the least power of two that is at least x. */
  ghost predicate IsCeilLog2(x: nat, e: nat) {
    x <= Pow2(e) && (e > 0 ==> Pow2(e - 1) < x)
  }

  method CeilLog2(x: nat) returns (e: nat)
    requires x >= 1
    ensures IsCeilLog2(x, e)
  {
    var l := Log2(x - 1);
    BitLenBounds(x - 1);
    e := l + 1;
  }

  lemma CeilLog2Unique(x: nat, d: nat, e: nat)
    requires IsCeilLog2(x, d) && IsCeilLog2(x, e)
    ensures d == e
  {
    if d < e {
      Pow2Monotone(d, e - 1);
    } else if e < d {
      Pow2Monotone(e, d - 1);
    }
  }

  // ---- Sizes as "floating point bytes", the operands of NEWTABLE

  /** luaO_fb2int: eeeeexxx stands for (1xxx) * 2^(eeeee - 1), or xxx when eeeee is 0. */
  function Fb2Int(b: nat): nat {
    if b / 8 == 0 then b else (b % 8 + 8) * Pow2(b / 8 - 1)
  }

  lemma Fb2IntIncreases(b: nat)
    ensures Fb2Int(b) < Fb2Int(b + 1)
  {
    var e := b / 8;
    if b % 8 < 7 {
      assert (b + 1) / 8 == e && (b + 1) % 8 == b % 8 + 1;
    } else {
      assert (b + 1) / 8 == e + 1 && (b + 1) % 8 == 0;
      if e > 0 {
        assert Pow2(e) == 2 * Pow2(e - 1);
        assert Fb2Int(b) == 15 * Pow2(e - 1) && Fb2Int(b + 1) == 16 * Pow2(e - 1);
      }
    }
  }

  lemma {:induction false} Fb2IntMonotone(a: nat, b: nat)
    requires a <= b
    ensures Fb2Int(a) <= Fb2Int(b)
    decreases b
  {
    if a < b {
      Fb2IntMonotone(a, b - 1);
      Fb2IntIncreases(b - 1);
    }
  }

  lemma TimesMonotone(a: int, b: int, p: nat)
    requires a <= b
    ensures a * p <= b * p
  {
  }

  /** x, in units of 2^e, rounded up to y. */
  ghost predicate RoundedUp(x: nat, y: nat, e: nat) {
    && (y - 1) * Pow2(e) < x <= y * Pow2(e)
    && (e > 0 ==> y >= 8 && (y == 8 ==> 15 * Pow2(e - 1) < x))
  }

  lemma HalveRounded(x: nat, y: nat, e: nat)
    requires RoundedUp(x, y, e) && y >= 16
    ensures RoundedUp(x, (y + 1) / 2, e + 1)
  {
    var h := (y + 1) / 2;
    TimesTwo(h, Pow2(e));
    TimesTwo(h - 1, Pow2(e));
    TimesMonotone(y, 2 * h, Pow2(e));
    TimesMonotone(2 * (h - 1), y - 1, Pow2(e));
    if h == 8 {
      assert y == 16;
    }
  }

  lemma TimesTwo(h: int, p: nat)
    ensures h * (2 * p) == (2 * h) * p
  {
  }

  lemma ExponentSmall(e: nat)
    requires 7 * Pow2(e) < 0x1_0000_0000
    ensures e < 30
  {
    assert Pow2(10) == 0x400;
    assert Pow2(20) == 0x10_0000;
    assert Pow2(30) == 0x4000_0000;
    if e >= 30 {
      Pow2Monotone(30, e);
    }
  }

  lemma LeastByte(x: nat, y: nat, e: nat, b: nat)
    requires 0 < x < 0x1_0000_0000 && RoundedUp(x, y, e) && y < 16
    requires b == if y < 8 then y else (e + 1) * 8 + (y - 8)
    ensures Fb2Int(b) >= x && b < 256
    ensures forall a: nat :: a < b ==> Fb2Int(a) < x
  {
    if y >= 8 {
      assert b / 8 == e + 1 && b % 8 == y - 8;
      TimesMonotone(7, y - 1, Pow2(e));
      ExponentSmall(e);
      if y > 8 {
        assert (b - 1) / 8 == e + 1 && (b - 1) % 8 == y - 9;
        assert Fb2Int(b - 1) == (y - 1) * Pow2(e);
      } else if e > 0 {
        assert (b - 1) / 8 == e && (b - 1) % 8 == 7;
        assert Fb2Int(b - 1) == 15 * Pow2(e - 1);
      }
    }
    forall a: nat | a < b ensures Fb2Int(a) < x {
      Fb2IntMonotone(a, b - 1);
    }
  }

  /** (x + 1) >> 1 on an unsigned int. */
  function Halved(y: nat): (h: nat)
    requires 16 <= y < 0x1_0000_0000
    ensures y < 0xFFFF_FFFF ==> h == (y + 1) / 2 && h < y
    ensures y == 0xFFFF_FFFF ==> h == 0
  {
    (y + 1) % 0x1_0000_0000 / 2
  }

  lemma NotRounded(x: nat)
    ensures (x > 0 ==> RoundedUp(x, x, 0)) && Fb2Int(0) == 0
  {
  }

  /** luaO_int2fb: the least such byte that stands for at least x, exactly if x is not the largest
      unsigned int; there x + 1 wraps around and the answer is 0. */
  method Int2Fb(x: nat) returns (b: nat)
    requires x < 0x1_0000_0000
    ensures b < 256 && (Fb2Int(b) >= x <==> x < 0xFFFF_FFFF)
    ensures forall a: nat :: a < b ==> Fb2Int(a) < x
  {
    hide RoundedUp, Fb2Int, Pow2;
    NotRounded(x);
    var y: nat, e: nat := x, 0;
    while y >= 16
      invariant (x < 0xFFFF_FFFF && x > 0 ==> RoundedUp(x, y, e)) && y <= x
      invariant x == 0 || x == 0xFFFF_FFFF ==> (y == x && e == 0) || (y == 0 && e == 1)
    {
      if x < 0xFFFF_FFFF {
        HalveRounded(x, y, e);
      }
      y := Halved(y);
      e := e + 1;
    }
    b := if y < 8 then y else (e + 1) * 8 + (y - 8);
    if 0 < x < 0xFFFF_FFFF {
      LeastByte(x, y, e, b);
    }
  }
}
