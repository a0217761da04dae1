/** Bits of natural numbers; bit 0 is the least significant. */
module Bits {

  function Pow2(k: nat): (p: nat)
    ensures p > 0
  {
    if k == 0 then 1 else 2 * Pow2(k - 1)
  }

  predicate Bit(n: nat, i: nat) {
    if i == 0 then n % 2 == 1 else Bit(n / 2, i - 1)
  }

  function B(v: bool): nat {
    if v then 1 else 0
  }

  /** n | 1 << i, or n & ~(1 << i). */
  function WithBit(n: nat, i: nat, v: bool): nat {
    if i == 0 then 2 * (n / 2) + B(v) else 2 * WithBit(n / 2, i - 1, v) + n % 2
  }

  lemma {:induction false} BitOfWithBit(n: nat, i: nat, v: bool, j: nat)
    ensures Bit(WithBit(n, i, v), j) == if j == i then v else Bit(n, j)
  {
    if i > 0 && j > 0 {
      BitOfWithBit(n / 2, i - 1, v, j - 1);
    }
  }

  /** Setting a clear bit adds its weight, clearing a set one subtracts it. */
  lemma {:induction false} WithBitValue(n: nat, i: nat, v: bool)
    ensures WithBit(n, i, v) == n + B(v) * Pow2(i) - B(Bit(n, i)) * Pow2(i)
  {
    if i > 0 {
      WithBitValue(n / 2, i - 1, v);
    }
  }

  lemma {:induction false} WithBitRange(n: nat, i: nat, v: bool, k: nat)
    requires n < Pow2(k) && i < k
    ensures WithBit(n, i, v) < Pow2(k)
  {
    if i > 0 {
      WithBitRange(n / 2, i - 1, v, k - 1);
    }
  }

  lemma ByteFits(n: nat, i: nat, v: bool)
    requires n < 256 && i < 8
    ensures WithBit(n, i, v) < 256
  {
    assert Pow2(8) == 256;
    WithBitRange(n, i, v, 8);
  }

  /** Numbers of k bits that agree in every bit are equal. */
  lemma {:induction false} SameBits(n: nat, m: nat, k: nat)
    requires n < Pow2(k) && m < Pow2(k)
    requires forall i :: 0 <= i < k ==> Bit(n, i) == Bit(m, i)
    ensures n == m
  {
    if k > 0 {
      assert Bit(n, 0) == Bit(m, 0);
      forall i | 0 <= i < k - 1
        ensures Bit(n / 2, i) == Bit(m / 2, i)
      {
        assert Bit(n, i + 1) == Bit(m, i + 1);
      }
      SameBits(n / 2, m / 2, k - 1);
    }
  }

  lemma DivUnique(n: int, d: nat, q: int, r: nat)
    requires r < d && n == d * q + r
    ensures n / d == q && n % d == r
  {
    var q' := n / d;
    assert n == d * q' + n % d;
    if q' < q {
      MulStep(d, q', q);
    } else if q < q' {
      MulStep(d, q, q');
    }
  }

  lemma {:induction false} MulStep(d: nat, a: int, b: int)
    requires a < b
    ensures d * b >= d * a + d
    decreases b - a
  {
    assert d * b == d * (b - 1) + d;
    if a < b - 1 {
      MulStep(d, a, b - 1);
    }
  }

  // ---------------------------------------------------------------------------
  // Bitwise operators
  // ---------------------------------------------------------------------------

  function And(a: nat, b: nat): nat
    decreases a
  {
    if a == 0 || b == 0 then 0 else 2 * And(a / 2, b / 2) + (a % 2) * (b % 2)
  }

  function Or(a: nat, b: nat): nat
    decreases a + b
  {
    if a == 0 then b else if b == 0 then a
    else 2 * Or(a / 2, b / 2) + (if a % 2 == 1 || b % 2 == 1 then 1 else 0)
  }

  lemma AndStep(a: nat, b: nat)
    ensures And(a, b) == 2 * And(a / 2, b / 2) + (a % 2) * (b % 2)
  {
  }

  lemma {:induction false} ZeroHasNoBits(i: nat)
    ensures !Bit(0, i)
  {
    if i > 0 {
      ZeroHasNoBits(i - 1);
    }
  }

  lemma {:induction false} BitOfAnd(a: nat, b: nat, i: nat)
    ensures Bit(And(a, b), i) == (Bit(a, i) && Bit(b, i))
    decreases i
  {
    AndStep(a, b);
    hide And;
    if i > 0 {
      BitOfAnd(a / 2, b / 2, i - 1);
    }
  }

  lemma {:induction false} BitOfOr(a: nat, b: nat, i: nat)
    ensures Bit(Or(a, b), i) == (Bit(a, i) || Bit(b, i))
    decreases i
  {
    if a == 0 || b == 0 {
      ZeroHasNoBits(i);
    } else if i > 0 {
      BitOfOr(a / 2, b / 2, i - 1);
    }
  }

  /** Masking with k ones takes the remainder. */
  lemma {:induction false} AndLowMask(n: nat, k: nat)
    ensures And(n, Pow2(k) - 1) == n % Pow2(k)
  {
    hide And;
    if k == 0 {
      AndZero(n);
    } else {
      var m := Pow2(k - 1) - 1;
      AndLowMask(n / 2, k - 1);
      AndStep(n, 2 * m + 1);
      assert (2 * m + 1) / 2 == m && (2 * m + 1) % 2 == 1;
      ModTwice(n, Pow2(k - 1));
    }
  }

  lemma AndZero(n: nat)
    ensures And(n, 0) == 0
  {
  }

  lemma ModTwice(n: nat, p: nat)
    requires p > 0
    ensures n % (2 * p) == 2 * (n / 2 % p) + n % 2
  {
    var q, r := n / 2 / p, n / 2 % p;
    assert n == 2 * (p * q + r) + n % 2;
    assert n == (2 * p) * q + (2 * r + n % 2);
    DivUnique(n, 2 * p, q, 2 * r + n % 2);
  }

  /** The number of ones. */
  function Ones(n: nat): nat {
    if n == 0 then 0 else n % 2 + Ones(n / 2)
  }

  // ---------------------------------------------------------------------------
  // Masks and remainders
  // ---------------------------------------------------------------------------

  lemma {:induction false} BitOfMod(n: nat, k: nat, i: nat)
    requires i < k
    ensures Bit(n % Pow2(k), i) == Bit(n, i)
  {
    ModTwice(n, Pow2(k - 1));
    if i > 0 {
      BitOfMod(n / 2, k - 1, i - 1);
      var m := n / 2 % Pow2(k - 1);
      assert (2 * m + n % 2) / 2 == m;
    }
  }

  /** The bit of greatest weight. */
  lemma {:induction false} TopBit(n: nat, k: nat)
    requires n < 2 * Pow2(k)
    ensures Bit(n, k) <==> n >= Pow2(k)
  {
    if k > 0 {
      TopBit(n / 2, k - 1);
    }
  }

  lemma OrStep(a: nat, b: nat)
    ensures Or(a, 2 * b) == 2 * Or(a / 2, b) + a % 2
  {
  }

  lemma {:induction false} OrOnes(n: nat, w: nat)
    requires n < Pow2(w)
    ensures Or(n, Pow2(w) - 1) == Pow2(w) - 1
  {
    if w > 0 {
      OrOnes(n / 2, w - 1);
      OrOdd(n, Pow2(w - 1) - 1);
    }
  }

  lemma OrOdd(a: nat, b: nat)
    ensures Or(a, 2 * b + 1) == 2 * Or(a / 2, b) + 1
  {
  }

  /** Or with ones from position k up to w keeps the k low bits. */
  lemma {:induction false} OrHighMask(n: nat, k: nat, w: nat)
    requires n < Pow2(w) && k <= w
    ensures Pow2(k) <= Pow2(w) && Or(n, Pow2(w) - Pow2(k)) == n % Pow2(k) + Pow2(w) - Pow2(k)
  {
    if k == 0 {
      OrOnes(n, w);
    } else {
      OrHighMask(n / 2, k - 1, w - 1);
      OrStep(n, Pow2(w - 1) - Pow2(k - 1));
      ModTwice(n, Pow2(k - 1));
    }
  }

  lemma {:induction false} AndOneBit(i: nat, w: nat)
    ensures And(Pow2(i), w) == if Bit(w, i) then Pow2(i) else 0
  {
    hide And;
    AndStep(Pow2(i), w);
    if i > 0 {
      AndOneBit(i - 1, w / 2);
    } else {
      AndNone(w / 2);
    }
  }

  lemma AndNone(w: nat)
    ensures And(0, w) == 0
  {
  }

  lemma {:induction false} Pow2Mono(j: nat, k: nat)
    requires j <= k
    ensures Pow2(j) <= Pow2(k)
  {
    if j < k {
      Pow2Mono(j, k - 1);
    }
  }

  lemma Pow2Of64()
    ensures Pow2(64) == 0x1_0000_0000_0000_0000
  {
    assert Pow2(8) == 0x100;
    assert Pow2(16) == 0x1_0000;
    assert Pow2(24) == 0x100_0000;
    assert Pow2(32) == 0x1_0000_0000;
    assert Pow2(40) == 0x100_0000_0000;
    assert Pow2(48) == 0x1_0000_0000_0000;
    assert Pow2(56) == 0x100_0000_0000_0000;
  }
}
