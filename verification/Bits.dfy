/** Masks, shifts and powers of two on 64-bit sizes (src/memory.h, src/table.c). */
module Bits {
  /** GROW_CAPACITY. */
  function GrowCapacity(capacity: nat): (r: nat)
    ensures capacity < r
  {
    if capacity < 8 then 8 else capacity * 2
  }

  const SIZE_BITS := 64

  function Pow2(k: nat): (p: nat)
    ensures p >= 1
  {
    if k == 0 then 1 else 2 * Pow2(k - 1)
  }

  ghost predicate IsPow2(n: nat) { exists k: nat :: n == Pow2(k) }

  /** Bitwise operators of C on unsigned integers. */
  function And(x: nat, y: nat): nat {
    if x == 0 || y == 0 then 0 else 2 * And(x / 2, y / 2) + (if x % 2 == 1 && y % 2 == 1 then 1 else 0)
  }

  function Or(x: nat, y: nat): nat
    decreases x + y
  {
    if x == 0 then y else if y == 0 then x
    else 2 * Or(x / 2, y / 2) + (if x % 2 == 1 || y % 2 == 1 then 1 else 0)
  }

  function Shift(x: nat, k: nat): nat
    decreases k
  {
    if k == 0 then x else Shift(x / 2, k - 1)
  }

  /** The k lowest bits. */
  function Low(x: nat, k: nat): (r: nat)
    ensures r < Pow2(k)
    decreases k
  {
    if k == 0 then 0 else 2 * Low(x / 2, k - 1) + x % 2
  }

  lemma {:induction false} Pow2Mono(a: nat, b: nat)
    requires a <= b
    ensures Pow2(a) <= Pow2(b)
    decreases b
  {
    if a < b {
      Pow2Mono(a, b - 1);
    }
  }

  lemma Pow2Double(w: nat)
    requires w >= 1
    ensures Pow2(w) == 2 * Pow2(w - 1)
  {
  }

  // ----- masks -----

  /** A mask of k ones leaves the k lowest bits. */
  lemma {:induction false} AndOnes(x: nat, k: nat)
    ensures And(x, Pow2(k) - 1) == Low(x, k)
    decreases k
  {
    if k > 0 {
      AndOnes(x / 2, k - 1);
      LowZero(k);
    }
  }

  lemma {:induction false} LowZero(k: nat)
    ensures Low(0, k) == 0
    decreases k
  {
    if k > 0 {
      LowZero(k - 1);
    }
  }

  lemma {:induction false} LowSmall(x: nat, k: nat)
    requires x < Pow2(k)
    ensures Low(x, k) == x
    decreases k
  {
    if k > 0 {
      LowSmall(x / 2, k - 1);
    }
  }

  lemma {:induction false} LowPow2(k: nat)
    ensures Low(Pow2(k), k) == 0
    decreases k
  {
    if k > 0 {
      LowPow2(k - 1);
    }
  }

  /** A table of 2^k slots has 2^(k+1) values: the mask without its lowest bit gives the
      place of a key. */
  lemma AndEven(x: nat, k: nat)
    ensures And(x, 2 * Pow2(k) - 2) == 2 * Low(x / 2, k)
  {
    AndOnes(x / 2, k);
    LowZero(k);
  }

  /** Stepping by two under the mask goes through the slots in a circle. */
  lemma AndStep(i: nat, k: nat)
    requires i < Pow2(k)
    ensures And(2 * i + 2, 2 * Pow2(k) - 1) == if i + 1 == Pow2(k) then 0 else 2 * (i + 1)
  {
    hide And;
    assert Pow2(k + 1) == 2 * Pow2(k);
    AndOnes(2 * i + 2, k + 1);
    assert Low(2 * i + 2, k + 1) == 2 * Low(i + 1, k);
    if i + 1 == Pow2(k) {
      LowPow2(k);
    } else {
      LowSmall(i + 1, k);
    }
  }

  // ----- rounding up -----

  lemma {:induction false} ShiftShift(x: nat, a: nat, b: nat)
    ensures Shift(Shift(x, a), b) == Shift(x, a + b)
    decreases a
  {
    if a > 0 {
      ShiftShift(x / 2, a - 1, b);
    }
  }

  lemma {:induction false} ShiftOr(x: nat, y: nat, k: nat)
    ensures Shift(Or(x, y), k) == Or(Shift(x, k), Shift(y, k))
    decreases k
  {
    if k > 0 {
      assert Or(x, y) / 2 == Or(x / 2, y / 2);
      ShiftOr(x / 2, y / 2, k - 1);
    }
  }

  lemma {:induction false} ShiftZero(k: nat)
    ensures Shift(0, k) == 0
    decreases k
  {
    if k > 0 {
      ShiftZero(k - 1);
    }
  }

  lemma {:induction false} ShiftSmall(x: nat, k: nat)
    requires x < Pow2(k)
    ensures Shift(x, k) == 0
    decreases k
  {
    if k > 0 {
      ShiftSmall(x / 2, k - 1);
    }
  }

  lemma {:induction false} ShiftLess(x: nat, k: nat)
    ensures Shift(x, k) <= x
    decreases k
  {
    if k > 0 {
      ShiftLess(x / 2, k - 1);
    }
  }

  /** Ones fill in the lowest d bits below a run of e ones. */
  lemma {:induction false} OrFill(x: nat, d: nat, e: nat)
    requires Shift(x, d) == Pow2(e) - 1
    ensures Or(x, Pow2(d) - 1) == Pow2(d + e) - 1
    decreases d
  {
    if d > 0 {
      if x == 0 {
        ShiftZero(d);
        assert e == 0;
      } else {
        OrFill(x / 2, d - 1, e);
        var y := Pow2(d) - 1;
        assert y / 2 == Pow2(d - 1) - 1 && y % 2 == 1;
      }
    }
  }

  /** The i highest bits of a number of b bits are ones. */
  ghost predicate TopOnes(n: nat, b: nat, i: nat) {
    i <= b && n < Pow2(b) && Shift(n, b - i) == Pow2(i) - 1
  }

  lemma {:induction false} OnesShift(i: nat, e: nat)
    requires e <= i
    ensures Shift(Pow2(i) - 1, e) == Pow2(i - e) - 1
    decreases e
  {
    if e > 0 {
      assert (Pow2(i) - 1) / 2 == Pow2(i - 1) - 1;
      OnesShift(i - 1, e - 1);
    }
  }

  lemma {:induction false} OrBound(x: nat, y: nat, b: nat)
    requires x < Pow2(b) && y < Pow2(b)
    ensures Or(x, y) < Pow2(b)
    decreases b
  {
    if b > 0 && x != 0 && y != 0 {
      OrBound(x / 2, y / 2, b - 1);
    }
  }

  /** One step of the smearing doubles the run of ones. */
  lemma SmearStep(n: nat, b: nat, i: nat)
    requires 1 <= i <= b && TopOnes(n, b, i)
    ensures TopOnes(Or(n, Shift(n, i)), b, if 2 * i <= b then 2 * i else b)
  {
    hide Pow2, Or, Shift;
    var j := if 2 * i <= b then 2 * i else b;
    var d := j - i;
    ShiftOr(n, Shift(n, i), b - j);
    ShiftShift(n, i, b - j);
    ShiftShift(n, b - j, d);
    ShiftShift(n, b - i, i - d);
    OnesShift(i, i - d);
    OrFill(Shift(n, b - j), d, i);
    ShiftLess(n, i);
    OrBound(n, Shift(n, i), b);
  }

  lemma FullStays(n: nat, b: nat, i: nat)
    requires TopOnes(n, b, b) && i >= b
    ensures TopOnes(Or(n, Shift(n, i)), b, b)
  {
    Pow2Mono(b, i);
    ShiftSmall(n, i);
  }

  /** The number of bits of n. */
  function Width(n: nat): nat { if n == 0 then 0 else 1 + Width(n / 2) }

  lemma {:induction false} WidthTop(n: nat)
    requires n > 0
    ensures Width(n) >= 1 && Pow2(Width(n) - 1) <= n && TopOnes(n, Width(n), 1)
    decreases n
  {
    if n > 1 {
      WidthTop(n / 2);
    }
  }

  function Least(a: nat, b: nat): nat { if a <= b then a else b }

  /** n - 1 and n + 1 on size_t. */
  function Decrement(n: nat): nat { if n == 0 then Pow2(SIZE_BITS) - 1 else n - 1 }
  function Increment(n: nat): nat { if n == Pow2(SIZE_BITS) - 1 then 0 else n + 1 }

  /** round_up_pow_2: the least power of two that is not below size; 0 stays 0. */
  method RoundUpPow2(size: nat) returns (n: nat)
    requires size <= Pow2(SIZE_BITS - 1)
    ensures size == 0 ==> n == 0
    ensures size >= 1 ==> IsPow2(n) && size <= n && forall k: nat :: size <= Pow2(k) ==> n <= Pow2(k)
  {
    hide Pow2, Shift, Width, TopOnes, IsPow2;
    Pow2Double(SIZE_BITS);
    n := Decrement(size);
    ghost var m := n;
    var i := 1;
    ghost var t: nat := 0;
    if m > 0 {
      WidthTop(m);
    }
    while i < SIZE_BITS
      invariant i == Powers(t) && t <= 6
      invariant m == 0 ==> n == 0
      invariant m > 0 ==> TopOnes(n, Width(m), Least(i, Width(m)))
      decreases 6 - t
    {
      if m == 0 {
        ShiftZero(i);
      } else if i < Width(m) {
        SmearStep(n, Width(m), i);
      } else {
        FullStays(n, Width(m), i);
      }
      n := Or(n, Shift(n, i));
      i := 2 * i;
      t := t + 1;
    }
    RoundedUp(size, m, n, i, SIZE_BITS);
    n := Increment(n);
  }

  /** The distances by which round_up_pow_2 shifts. */
  function Powers(t: nat): nat {
    if t == 0 then 1 else if t == 1 then 2 else if t == 2 then 4 else if t == 3 then 8
    else if t == 4 then 16 else if t == 5 then 32 else 64
  }

  lemma PowerIs(k: nat)
    ensures IsPow2(Pow2(k)) && Pow2(0) == 1
  {
  }

  lemma AllOnes(n: nat, b: nat)
    requires TopOnes(n, b, b)
    ensures n == Pow2(b) - 1
  {
    assert Shift(n, 0) == n;
  }

  lemma LeastPower(b: nat, size: nat, k: nat)
    requires b >= 1 && Pow2(b - 1) < size <= Pow2(k)
    ensures Pow2(b) <= Pow2(k)
  {
    if k < b {
      Pow2Mono(k, b - 1);
    } else {
      Pow2Mono(b, k);
    }
  }

  /** What the smeared number is, for sizes of w bits. */
  lemma RoundedUp(size: nat, m: nat, n: nat, i: nat, w: nat)
    requires w >= 1 && size <= Pow2(w - 1) && m == (if size == 0 then Pow2(w) - 1 else size - 1) && i >= w
    requires m == 0 ==> n == 0
    requires m > 0 ==> TopOnes(n, Width(m), Least(i, Width(m)))
    ensures size == 0 ==> n == Pow2(w) - 1
    ensures size >= 1 ==> n + 1 <= Pow2(w - 1) && IsPow2(n + 1) && size <= n + 1 && forall k: nat :: size <= Pow2(k) ==>
      n + 1 <= Pow2(k)
  {
    hide Or, Pow2, Shift, TopOnes, IsPow2, Width;
    Pow2Double(w);
    if m == 0 {
      PowerIs(0);
    } else {
      var b := Width(m);
      WidthTop(m);
      if b > w {
        Pow2Mono(w, b - 1);
      }
      AllOnes(n, b);
      PowerIs(b);
      if b < w {
        Pow2Mono(b, w - 1);
      }
      if size >= 1 {
        forall k: nat | size <= Pow2(k) ensures Pow2(b) <= Pow2(k) {
          LeastPower(b, size, k);
        }
      }
    }
  }
}
