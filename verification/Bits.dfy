/** Bitwise arithmetic on natural numbers, as used by 32-bit hashing. */
module Bits {

  type Byte = b: int | 0 <= b < 256

  /** Exclusive or. */
  function Xor(a: nat, b: nat): nat
    decreases a + b
  {
    if a == 0 && b == 0 then 0 else (a + b) % 2 + 2 * Xor(a / 2, b / 2)
  }

  /** `a >> k`. */
  function Shr(a: nat, k: nat): nat
    decreases k
  {
    if k == 0 then a else Shr(a / 2, k - 1)
  }

  /** The low k bits of `a`. */
  function Low(a: nat, k: nat): nat
    decreases k
  {
    if k == 0 then 0 else a % 2 + 2 * Low(a / 2, k - 1)
  }

  function Pow2(k: nat): (p: nat)
    ensures p > 0
  {
    if k == 0 then 1 else 2 * Pow2(k - 1)
  }

  // ---- exclusive or ---------------------------------------------------------------------

  lemma {:induction false} XorHalves(a: nat, b: nat)
    ensures Xor(a, b) % 2 == (a + b) % 2 && Xor(a, b) / 2 == Xor(a / 2, b / 2)
  {
    if a == 0 && b == 0 {
      assert Xor(0, 0) == 0;
    } else {
      Halves((a + b) % 2, Xor(a / 2, b / 2));
    }
  }

  lemma Halves(bit: nat, half: nat)
    requires bit < 2
    ensures (bit + 2 * half) % 2 == bit && (bit + 2 * half) / 2 == half
  {}

  lemma {:induction false} XorZero(a: nat)
    ensures Xor(a, 0) == a && Xor(0, a) == a
    decreases a
  {
    if a != 0 {
      XorZero(a / 2);
    }
  }

  lemma {:induction false} XorSelf(a: nat)
    ensures Xor(a, a) == 0
    decreases a
  {
    if a != 0 {
      XorSelf(a / 2);
    }
  }

  lemma SameHalves(x: nat, y: nat)
    requires x / 2 == y / 2 && x % 2 == y % 2
    ensures x == y
  {}

  lemma ParityAssociative(a: nat, b: nat, c: nat, ab: nat, bc: nat)
    requires ab % 2 == (a + b) % 2 && bc % 2 == (b + c) % 2
    ensures (ab + c) % 2 == (a + bc) % 2
  {}

  lemma AssociativeHalves(a: nat, b: nat, c: nat, ab: nat, bc: nat, left: nat, right: nat)
    requires ab % 2 == (a + b) % 2 && bc % 2 == (b + c) % 2
    requires left % 2 == (ab + c) % 2 && right % 2 == (a + bc) % 2 && left / 2 == right / 2
    ensures left == right
  {
    ParityAssociative(a, b, c, ab, bc);
    SameHalves(left, right);
  }

  lemma {:induction false} XorAssociative(a: nat, b: nat, c: nat)
    ensures Xor(Xor(a, b), c) == Xor(a, Xor(b, c))
    decreases a + b + c
  {
    if a + b + c != 0 {
      var ab, bc := Xor(a, b), Xor(b, c);
      XorHalves(a, b);
      XorHalves(b, c);
      XorHalves(ab, c);
      XorHalves(a, bc);
      XorAssociative(a / 2, b / 2, c / 2);
      AssociativeHalves(a, b, c, ab, bc, Xor(ab, c), Xor(a, bc));
    }
  }

  /** Xoring twice with the same word is the identity. */
  lemma XorTwice(a: nat, b: nat)
    ensures Xor(Xor(a, b), b) == a
  {
    XorAssociative(a, b, b);
    XorSelf(b);
    XorZero(a);
  }

  lemma {:induction false} XorCommutative(a: nat, b: nat)
    ensures Xor(a, b) == Xor(b, a)
    decreases a + b
  {
    if a != 0 || b != 0 {
      XorCommutative(a / 2, b / 2);
    }
  }

  lemma XorInjective(a: nat, b: nat, c: nat)
    requires Xor(a, b) == Xor(a, c)
    ensures b == c
  {
    XorCommutative(a, b);
    XorCommutative(a, c);
    XorTwice(b, a);
    XorTwice(c, a);
  }

  // ---- shifts, low bits and bounds ------------------------------------------------------

  /** Shifting distributes over exclusive or. */
  lemma {:induction false} XorShift(a: nat, b: nat, k: nat)
    ensures Shr(Xor(a, b), k) == Xor(Shr(a, k), Shr(b, k))
    decreases k
  {
    if k > 0 {
      XorHalves(a, b);
      XorShift(a / 2, b / 2, k - 1);
    }
  }

  lemma {:induction false} ShiftTwice(a: nat, j: nat, k: nat)
    ensures Shr(Shr(a, j), k) == Shr(a, j + k)
    decreases j
  {
    if j > 0 {
      ShiftTwice(a / 2, j - 1, k);
    }
  }

  /** Nothing is left of a word shifted by its width. */
  lemma {:induction false} ShiftOut(a: nat, k: nat)
    requires a < Pow2(k)
    ensures Shr(a, k) == 0
    decreases k
  {
    if k > 0 {
      ShiftOut(a / 2, k - 1);
    }
  }

  /** Words below 2^k stay below 2^k. */
  lemma {:induction false} XorBelow(a: nat, b: nat, k: nat)
    requires a < Pow2(k) && b < Pow2(k)
    ensures Xor(a, b) < Pow2(k)
    decreases k
  {
    if k > 0 {
      XorBelow(a / 2, b / 2, k - 1);
    }
  }

  lemma {:induction false} ShiftBelow(a: nat, k: nat)
    ensures Shr(a, k) <= a
    decreases k
  {
    if k > 0 {
      ShiftBelow(a / 2, k - 1);
    }
  }

  lemma MoveTwo(x: nat, y: nat)
    ensures x * (2 * y) == 2 * (x * y) && (2 * x) * y == 2 * (x * y)
  {}

  lemma SplitStep(half: nat, bit: nat, high: nat, p: nat, low: nat)
    requires half == high * p + low && low < p && bit < 2
    ensures 2 * half + bit == high * (2 * p) + (bit + 2 * low) && bit + 2 * low < 2 * p
  {
    MoveTwo(high, p);
  }

  /** A word is its high part and its low part. */
  lemma {:induction false} Split(a: nat, k: nat)
    ensures a == Shr(a, k) * Pow2(k) + Low(a, k)
    ensures Low(a, k) < Pow2(k)
    decreases k
  {
    if k > 0 {
      Split(a / 2, k - 1);
      SplitStep(a / 2, a % 2, Shr(a / 2, k - 1), Pow2(k - 1), Low(a / 2, k - 1));
    }
  }

  /** The low k bits of an exclusive or depend on the low k bits of its operands alone. */
  lemma {:induction false} XorLow(a: nat, b: nat, k: nat)
    ensures Low(Xor(a, b), k) == Xor(Low(a, k), Low(b, k))
    decreases k
  {
    if k > 0 {
      XorLow(a / 2, b / 2, k - 1);
      XorHalves(a, b);
      LowHalves(a, k);
      LowHalves(b, k);
      LowHalves(Xor(a, b), k);
      XorHalves(Low(a, k), Low(b, k));
      SameParity(a, b, Low(a, k), Low(b, k));
      SameHalves(Low(Xor(a, b), k), Xor(Low(a, k), Low(b, k)));
    }
  }

  lemma LowHalves(a: nat, k: nat)
    requires k > 0
    ensures Low(a, k) % 2 == a % 2 && Low(a, k) / 2 == Low(a / 2, k - 1)
  {
    Halves(a % 2, Low(a / 2, k - 1));
  }

  lemma SameParity(a: nat, b: nat, c: nat, d: nat)
    requires a % 2 == c % 2 && b % 2 == d % 2
    ensures (a + b) % 2 == (c + d) % 2
  {}

  // ---- products that wrap ---------------------------------------------------------------

  lemma UniqueQuotient(a: int, m: int, q: int, r: int)
    requires m > 0 && a == q * m + r && 0 <= r < m
    ensures a / m == q && a % m == r
  {
    var d := a / m - q;
    assert d * m == r - a % m && (-d) * m == -(d * m);
    if d > 0 {
      AtLeast(d, m);
    } else if d < 0 {
      AtLeast(-d, m);
    }
  }

  lemma AtLeast(c: nat, m: nat)
    requires c > 0
    ensures c * m >= m
  {
    assert c * m == (c - 1) * m + m;
  }

  /** Multiplying back by the inverse undoes a product that wrapped modulo `m`. */
  lemma UndoProduct(x: nat, factor: nat, inverse: nat, m: nat, k: nat)
    requires 0 <= x < m && factor * inverse == 1 + k * m
    ensures ((x * factor) % m * inverse) % m == x
  {
    var q, r := (x * factor) / m, (x * factor) % m;
    calc {
      r * inverse;
      (x * factor - q * m) * inverse;
      x * (factor * inverse) - q * m * inverse;
      x * (1 + k * m) - q * m * inverse;
      (x * k - q * inverse) * m + x;
    }
    UniqueQuotient(r * inverse, m, x * k - q * inverse, x);
  }

  lemma WordLimit()
    ensures Pow2(8) == 256 && Pow2(16) == 0x1_0000 && Pow2(32) == 0x1_0000_0000
  {
    for k := 0 to 8
      invariant Pow2(k) == [1, 2, 4, 8, 16, 32, 64, 128, 256][k]
    {}
    PowSum(8, 8);
    PowSum(16, 16);
  }

  lemma {:induction false} PowSum(j: nat, k: nat)
    ensures Pow2(j + k) == Pow2(j) * Pow2(k)
    decreases j
  {
    if j > 0 {
      PowSum(j - 1, k);
      MoveTwo(Pow2(j - 1), Pow2(k));
    }
  }

  lemma HalveSum(a: nat, m: nat)
    ensures (a + 2 * m) / 2 == a / 2 + m && (a + 2 * m) % 2 == a % 2
  {}

  lemma {:induction false} LowOfSum(a: nat, b: nat, j: nat, k: nat)
    requires j >= k
    ensures Low(a + b * Pow2(j), k) == Low(a, k)
    decreases k
  {
    if k > 0 {
      MoveTwo(b, Pow2(j - 1));
      HalveSum(a, b * Pow2(j - 1));
      LowOfSum(a / 2, b, j - 1, k - 1);
    }
  }

  /** The low k bits of a wrapped product depend on the low k bits of the multiplicand alone. */
  lemma ProductLow(x: nat, factor: nat, j: nat, k: nat)
    requires k <= j
    ensures Low((x * factor) % Pow2(j), k) == Low(Low(x, k) * factor, k)
  {
    var s, l := Shr(x, k), Low(x, k);
    Split(x, k);
    Distribute(s, Pow2(k), l, factor);
    LowOfSum(l * factor, s * factor, k, k);
    WrapLow(x * factor, j, k);
  }

  lemma Distribute(s: nat, m: nat, l: nat, f: nat)
    ensures (s * m + l) * f == l * f + (s * f) * m
  {}

  lemma Quotient(p: nat, m: nat) returns (q: nat, r: nat)
    requires m > 0
    ensures p == r + q * m && r == p % m
  {
    q, r := p / m, p % m;
  }

  lemma WrapLow(p: nat, j: nat, k: nat)
    requires k <= j
    ensures Low(p % Pow2(j), k) == Low(p, k)
  {
    var q, r := Quotient(p, Pow2(j));
    LowOfSum(r, q, j, k);
  }
}
