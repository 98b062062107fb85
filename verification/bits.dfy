/** Non-negative integers seen as bit strings, the way Python's `>>`, `&`, `^`
    and `%` treat them. */
module Bits {

  function Pow2(n: nat): (r: nat)
    ensures r >= 1
  {
    if n == 0 then 1 else 2 * Pow2(n - 1)
  }

  /** `v >> n`: n halvings. */
  function ShiftRight(v: nat, n: nat): nat
  {
    if n == 0 then v else ShiftRight(v / 2, n - 1)
  }

  /** `a & b`, one bit at a time from the low end. */
  function BitAnd(a: nat, b: nat): nat
  {
    if a == 0 || b == 0 then 0
    else 2 * BitAnd(a / 2, b / 2) + (if a % 2 == 1 && b % 2 == 1 then 1 else 0)
  }

  /** `a ^ b`, one bit at a time from the low end. */
  function Xor(a: nat, b: nat): nat
    decreases a + b
  {
    if a == 0 && b == 0 then 0
    else 2 * Xor(a / 2, b / 2) + (if a % 2 != b % 2 then 1 else 0)
  }

  /** The number of one bits of x. */
  function PopCount(x: nat): nat
  {
    if x == 0 then 0 else x % 2 + PopCount(x / 2)
  }

  /** Bit i of v, that is `(v >> i) & 1`. */
  function Bit(v: nat, i: nat): nat
  {
    ShiftRight(v, i) % 2
  }

  /** The number of positions i below n at which bit i of a and bit i of b differ. */
  function CountDiff(a: nat, b: nat, n: nat): nat
  {
    if n == 0 then 0
    else CountDiff(a, b, n - 1) + (if Bit(a, n - 1) != Bit(b, n - 1) then 1 else 0)
  }

  /** The number of positions low+i, i below n, at which a and b differ. */
  function CountDiffFrom(a: nat, b: nat, low: nat, n: nat): nat
  {
    if n == 0 then 0
    else CountDiffFrom(a, b, low, n - 1) + (if Bit(a, low + n - 1) != Bit(b, low + n - 1) then 1 else 0)
  }

  /** Python's `(v >> low) & ((1 << (high - low + 1)) - 1)`: bits low..high of v. */
  function Slice(v: nat, high: nat, low: nat): nat
    requires low <= high
  {
    BitAnd(ShiftRight(v, low), Pow2(high - low + 1) - 1)
  }

  // ---------------------------------------------------------------------------
  // Arithmetic facts about halving.

  lemma MulAtLeast(d: int, m: int)
    requires d >= 1 && m > 0
    ensures d * m >= m
  {
    var e := d - 1;
    assert e * m >= 0;
    assert d * m == e * m + m;
  }

  lemma DivModUnique(v: int, m: int, q: int, r: int)
    requires m > 0 && 0 <= r < m && v == q * m + r
    ensures v / m == q && v % m == r
  {
    var q', r' := v / m, v % m;
    assert v == q' * m + r';
    if q' > q {
      assert (q' - q) * m == r - r';
      MulAtLeast(q' - q, m);
    } else if q' < q {
      assert (q - q') * m == r' - r;
      MulAtLeast(q - q', m);
    }
  }

  lemma HalfOfQuotient(v: nat, p: nat)
    requires p > 0
    ensures (v / 2) / p == v / (2 * p)
    ensures v % (2 * p) == 2 * ((v / 2) % p) + v % 2
  {
    var q, r2, r1 := (v / 2) / p, (v / 2) % p, v % 2;
    assert v / 2 == q * p + r2;
    assert v == 2 * (v / 2) + r1;
    assert v == q * (2 * p) + (2 * r2 + r1);
    DivModUnique(v, 2 * p, q, 2 * r2 + r1);
  }

  // ---------------------------------------------------------------------------
  // The shift and the mask are division and remainder by powers of two.

  lemma {:induction false} ShiftRightIsDiv(v: nat, n: nat)
    ensures ShiftRight(v, n) == v / Pow2(n)
  {
    if n > 0 {
      ShiftRightIsDiv(v / 2, n - 1);
      HalfOfQuotient(v, Pow2(n - 1));
    }
  }

  lemma {:induction false} ShiftRightAdd(v: nat, m: nat, n: nat)
    ensures ShiftRight(ShiftRight(v, m), n) == ShiftRight(v, m + n)
  {
    if m > 0 {
      ShiftRightAdd(v / 2, m - 1, n);
    }
  }

  /** `x & ((1 << w) - 1) == x % 2^w`. */
  lemma {:induction false} MaskIsMod(x: nat, w: nat)
    ensures BitAnd(x, Pow2(w) - 1) == x % Pow2(w)
  {
    if w == 0 {
      assert Pow2(w) - 1 == 0;
    } else if x > 0 {
      var p := Pow2(w - 1);
      var mask := Pow2(w) - 1;
      assert mask == (p - 1) * 2 + 1;
      DivModUnique(mask, 2, p - 1, 1);
      var low := BitAnd(x / 2, p - 1);
      assert BitAnd(x, mask) == 2 * low + x % 2;
      MaskIsMod(x / 2, w - 1);
      assert low == (x / 2) % p;
      assert x % Pow2(w) == 2 * low + x % 2 by {
        assert Pow2(w) == 2 * p;
        HalfOfQuotient(x, p);
      }
    } else {
      DivModUnique(x, Pow2(w), 0, 0);
    }
  }

  /** A slice of bits low..high is below 2^(high-low+1) and is the remainder of
      the shifted value. */
  lemma SliceIsMod(v: nat, high: nat, low: nat)
    requires low <= high
    ensures Slice(v, high, low) == (v / Pow2(low)) % Pow2(high - low + 1)
    ensures Slice(v, high, low) < Pow2(high - low + 1)
  {
    ShiftRightIsDiv(v, low);
    MaskIsMod(ShiftRight(v, low), high - low + 1);
  }

  // ---------------------------------------------------------------------------
  // Bits of a remainder and of a slice.

  lemma {:induction false} BitOfMod(v: nat, w: nat, i: nat)
    requires i < w
    ensures Bit(v % Pow2(w), i) == Bit(v, i)
  {
    var p := Pow2(w - 1);
    HalfOfQuotient(v, p);
    var x, y := v % Pow2(w), (v / 2) % p;
    assert x == 2 * y + v % 2;
    if i == 0 {
      assert x % 2 == v % 2;
    } else {
      assert x / 2 == y;
      BitOfMod(v / 2, w - 1, i - 1);
      assert Bit(x, i) == Bit(y, i - 1);
    }
  }

  /** Bit i of the slice low..high of v is bit low+i of v. */
  lemma BitOfSlice(v: nat, high: nat, low: nat, i: nat)
    requires low <= high && i <= high - low
    ensures Bit(Slice(v, high, low), i) == Bit(v, low + i)
  {
    MaskIsMod(ShiftRight(v, low), high - low + 1);
    BitOfMod(ShiftRight(v, low), high - low + 1, i);
    ShiftRightAdd(v, low, i);
  }
}
