/** `computeHamming` (vcd2csv/vcd2csv.py:7-14): the number of bit positions at
    which two non-negative integers differ. */
module Hamming {
  import opened Bits

  /** The reference definition: the number of one bits of `a ^ b`. */
  function Distance(a: nat, b: nat): nat
  {
    PopCount(Xor(a, b))
  }

  /** The script's loop: compare the low bits, then shift both operands right
      until both are zero. */
  method ComputeHamming(a0: nat, b0: nat) returns (distance: nat)
    ensures distance == Distance(a0, b0)
  {
    var a, b := a0, b0;
    distance := 0;
    while a != 0 || b != 0
      invariant distance + Distance(a, b) == Distance(a0, b0)
      decreases a + b
    {
      DistanceStep(a, b);
      if a % 2 != b % 2 {
        distance := distance + 1;
      }
      a, b := a / 2, b / 2;
    }
  }

  /** One turn of the loop: the low bits, then the rest. */
  lemma DistanceStep(a: nat, b: nat)
    ensures Distance(a, b) == (if a % 2 != b % 2 then 1 else 0) + Distance(a / 2, b / 2)
  {
    if a != 0 || b != 0 {
      var x, d := Xor(a / 2, b / 2), if a % 2 != b % 2 then 1 else 0;
      assert Xor(a, b) == 2 * x + d;
      if 2 * x + d != 0 {
        assert (2 * x + d) % 2 == d && (2 * x + d) / 2 == x;
      }
    }
  }

  lemma {:induction false} XorSymmetric(a: nat, b: nat)
    ensures Xor(a, b) == Xor(b, a)
    decreases a + b
  {
    if a != 0 || b != 0 {
      XorSymmetric(a / 2, b / 2);
    }
  }

  lemma {:induction false} XorZeroIff(a: nat, b: nat)
    ensures Xor(a, b) == 0 <==> a == b
    decreases a + b
  {
    if a != 0 || b != 0 {
      XorZeroIff(a / 2, b / 2);
    }
  }

  lemma {:induction false} XorWithZero(x: nat)
    ensures Xor(x, 0) == x
  {
    if x != 0 {
      XorWithZero(x / 2);
    }
  }

  lemma {:induction false} PopCountZeroIff(x: nat)
    ensures PopCount(x) == 0 <==> x == 0
  {
    if x != 0 && x % 2 == 0 {
      PopCountZeroIff(x / 2);
    }
  }

  /** The distance does not depend on the order of the operands. */
  lemma DistanceSymmetric(a: nat, b: nat)
    ensures Distance(a, b) == Distance(b, a)
  {
    XorSymmetric(a, b);
  }

  /** The distance is zero exactly when the operands are equal. */
  lemma DistanceZeroIff(a: nat, b: nat)
    ensures Distance(a, b) == 0 <==> a == b
  {
    XorZeroIff(a, b);
    PopCountZeroIff(Xor(a, b));
  }

  /** The distance between a and b is the distance between `a ^ b` and 0. */
  lemma DistanceOfXor(a: nat, b: nat)
    ensures Distance(a, b) == Distance(Xor(a, b), 0)
  {
    XorWithZero(Xor(a, b));
  }

  lemma {:induction false} CountDiffShift(a: nat, b: nat, n: nat)
    ensures CountDiff(a, b, n + 1) == (if a % 2 != b % 2 then 1 else 0) + CountDiff(a / 2, b / 2, n)
  {
    if n > 0 {
      CountDiffShift(a, b, n - 1);
      assert Bit(a, n) == Bit(a / 2, n - 1) && Bit(b, n) == Bit(b / 2, n - 1);
    }
  }

  /** For operands of at most n bits, the distance is the number of positions
      below n at which their bits differ. */
  lemma {:induction false} DistanceCountsPositions(a: nat, b: nat, n: nat)
    requires a < Pow2(n) && b < Pow2(n)
    ensures Distance(a, b) == CountDiff(a, b, n)
  {
    if n == 0 {
      assert a == 0 && b == 0;
    } else {
      DistanceStep(a, b);
      DistanceCountsPositions(a / 2, b / 2, n - 1);
      CountDiffShift(a, b, n - 1);
    }
  }

  lemma {:induction false} CountDiffAtMost(a: nat, b: nat, n: nat)
    ensures CountDiff(a, b, n) <= n
  {
    if n > 0 {
      CountDiffAtMost(a, b, n - 1);
    }
  }

  /** Operands of at most w bits differ in at most w positions. */
  lemma DistanceWithinWidth(a: nat, b: nat, w: nat)
    requires a < Pow2(w) && b < Pow2(w)
    ensures Distance(a, b) <= w
  {
    DistanceCountsPositions(a, b, w);
    CountDiffAtMost(a, b, w);
  }

  lemma {:induction false} CountDiffOfSlices(a: nat, b: nat, high: nat, low: nat, n: nat)
    requires low <= high && n <= high - low + 1
    ensures CountDiff(Slice(a, high, low), Slice(b, high, low), n) == CountDiffFrom(a, b, low, n)
  {
    if n > 0 {
      CountDiffOfSlices(a, b, high, low, n - 1);
      BitOfSlice(a, high, low, n - 1);
      BitOfSlice(b, high, low, n - 1);
    }
  }

  /** The local distance of a bit range (lines 159-168) counts the positions
      low..high at which the two values differ, so it is at most high-low+1. */
  lemma SliceDistance(a: nat, b: nat, high: nat, low: nat)
    requires low <= high
    ensures Distance(Slice(a, high, low), Slice(b, high, low)) == CountDiffFrom(a, b, low, high - low + 1)
    ensures Distance(Slice(a, high, low), Slice(b, high, low)) <= high - low + 1
  {
    var w := high - low + 1;
    SliceIsMod(a, high, low);
    SliceIsMod(b, high, low);
    DistanceCountsPositions(Slice(a, high, low), Slice(b, high, low), w);
    CountDiffOfSlices(a, b, high, low, w);
    CountDiffAtMost(Slice(a, high, low), Slice(b, high, low), w);
  }
}
