/** Seeding helpers of the bracket generator: the next power of two, padding the
    competitor list with byes, and the number of knockout rounds.

    Python integers are unbounded, so `int` models them exactly. */
module Seeding {

  /** The placeholder entry appended to fill the draw up to a power of two. */
  const Bye: string := "BYE"

  function Abs(x: int): nat {
    if x < 0 then -x else x
  }

  /** 2 to the power k. */
  function Pow2(k: nat): (p: nat)
    ensures p >= 1
  {
    if k == 0 then 1 else 2 * Pow2(k - 1)
  }

  /** n is one of 1, 2, 4, 8, ... */
  predicate IsPowerOfTwo(n: int)
    decreases if n > 0 then n else 0
  {
    n == 1 || (n >= 2 && n % 2 == 0 && IsPowerOfTwo(n / 2))
  }

  lemma {:induction false} Pow2IsPowerOfTwo(k: nat)
    ensures IsPowerOfTwo(Pow2(k))
  {
    if k > 0 {
      Pow2IsPowerOfTwo(k - 1);
      assert Pow2(k) / 2 == Pow2(k - 1);
    }
  }

  /** Pow2 is strictly increasing, so it orders exponents and values alike. */
  lemma {:induction false} Pow2Ordered(j: nat, k: nat)
    ensures j <= k <==> Pow2(j) <= Pow2(k)
    ensures j < k <==> Pow2(j) < Pow2(k)
    decreases j + k
  {
    if j > 0 && k > 0 {
      Pow2Ordered(j - 1, k - 1);
    } else if j == 0 && k > 0 {
      Pow2Ordered(0, k - 1);
    } else if j > 0 && k == 0 {
      Pow2Ordered(j - 1, 0);
    }
  }

  /** Python's int.bit_length(): the number of binary digits of |x|, 0 for 0. */
  function BitLength(x: int): (b: nat)
    ensures x == 0 <==> b == 0
    ensures x != 0 ==> Pow2(b - 1) <= Abs(x) < Pow2(b)
    decreases Abs(x)
  {
    if x == 0 then 0 else 1 + BitLength(Abs(x) / 2)
  }

  /** next_power_of_two: 1 for zero, otherwise 2 raised to the bit length of n - 1. */
  function NextPowerOfTwo(n: int): (p: nat)
    ensures n == 0 ==> p == 1
    ensures n >= 1 ==> n <= p < 2 * n
  {
    if n == 0 then 1 else Pow2(BitLength(n - 1))
  }

  /** For n >= 1, NextPowerOfTwo(n) is the least power of two that is at least n. */
  lemma NextPowerOfTwoIsLeast(n: int)
    requires n >= 1
    ensures IsPowerOfTwo(NextPowerOfTwo(n)) && NextPowerOfTwo(n) >= n
    ensures forall k: nat :: Pow2(k) >= n ==> Pow2(k) >= NextPowerOfTwo(n)
  {
    var b := BitLength(n - 1);
    Pow2IsPowerOfTwo(b);
    forall k: nat | Pow2(k) >= n
      ensures Pow2(k) >= NextPowerOfTwo(n)
    {
      if n > 1 {
        // Pow2(b - 1) <= n - 1 < Pow2(k), so b - 1 < k
        Pow2Ordered(k, b - 1);
        Pow2Ordered(b, k);
      }
    }
  }

  /** A power of two is its own next power of two. */
  lemma NextPowerOfTwoOfPower(n: int)
    requires IsPowerOfTwo(n)
    ensures NextPowerOfTwo(n) == n
  {
    var k := RoundsFor(n);
    RoundsForPower(n);
    var p := NextPowerOfTwo(n);
    var b := BitLength(n - 1);
    if n > 1 {
      // Pow2(k) <= Pow2(b) < 2 * Pow2(k) == Pow2(k + 1)
      Pow2Ordered(k, b);
      Pow2Ordered(b, k + 1);
    }
  }

  /** seed_with_byes: the names, then "BYE" entries up to the next power of two. */
  function SeedWithByes(names: seq<string>): (seeds: seq<string>)
    ensures |seeds| == NextPowerOfTwo(|names|)
    ensures seeds[..|names|] == names
    ensures forall i :: |names| <= i < |seeds| ==> seeds[i] == Bye
  {
    var n := |names|;
    var size := NextPowerOfTwo(n);
    if n == size then names else names + seq(size - n, _ => Bye)
  }

  /** A list whose length is already a power of two gets no byes. */
  lemma SeedWithByesOfPower(names: seq<string>)
    requires IsPowerOfTwo(|names|)
    ensures SeedWithByes(names) == names
  {
    NextPowerOfTwoOfPower(|names|);
  }

  /** The seeded list always has a power-of-two length, at least 1. */
  lemma SeedWithByesIsPower(names: seq<string>)
    ensures IsPowerOfTwo(|SeedWithByes(names)|)
  {
    if |names| >= 1 {
      NextPowerOfTwoIsLeast(|names|);
    }
  }

  /** rounds_for: the integer part of log2(size) for a positive size, else 0. */
  function RoundsFor(size: int): (r: nat)
    ensures size <= 0 ==> r == 0
    ensures size >= 1 ==> Pow2(r) <= size < Pow2(r + 1)
    decreases if size > 0 then size else 0
  {
    if size <= 1 then 0 else 1 + RoundsFor(size / 2)
  }

  /** On a power of two, RoundsFor is the exact logarithm. */
  lemma {:induction false} RoundsForPower(size: int)
    requires IsPowerOfTwo(size)
    ensures Pow2(RoundsFor(size)) == size
    decreases if size > 0 then size else 0
  {
    if size > 1 {
      RoundsForPower(size / 2);
    }
  }

  lemma RoundsForPow2(k: nat)
    ensures RoundsFor(Pow2(k)) == k
  {
    var r := RoundsFor(Pow2(k));
    Pow2Ordered(r, k);
    Pow2Ordered(k, r + 1);
  }
}
