/** A string as a sequence of bits: position 0 is the most significant bit of the first byte. */
module BitString {
  import opened Prelude
  import opened Bits

  predicate BitAt(s: seq<byte>, p: nat)
    requires p < 8 * |s|
  {
    Bit(s[p / 8], 7 - p % 8)
  }

  /** Zero padded on the right. */
  predicate PaddedBit(s: seq<byte>, p: nat) {
    p < 8 * |s| && BitAt(s, p)
  }

  /** The number of ones among the first n positions. */
  function CountUpTo(s: seq<byte>, n: nat): nat
    requires n <= 8 * |s|
  {
    if n == 0 then 0 else CountUpTo(s, n - 1) + B(BitAt(s, n - 1))
  }

  /** The ones of all bytes. */
  function ByteOnes(s: seq<byte>): nat {
    if s == [] then 0 else ByteOnes(s[..|s| - 1]) + Ones(s[|s| - 1])
  }

  lemma {:induction false} CountPrefix(s: seq<byte>, t: seq<byte>, n: nat)
    requires n <= 8 * |s| && |s| <= |t| && s == t[..|s|]
    ensures CountUpTo(s, n) == CountUpTo(t, n)
  {
    if n > 0 {
      CountPrefix(s, t, n - 1);
    }
  }

  lemma {:induction false} OnesAreBits(n: nat, k: nat)
    requires n < Pow2(k)
    ensures Ones(n) == BitSum(n, k)
  {
    if k > 0 {
      OnesAreBits(n / 2, k - 1);
      BitSumShift(n, k);
    }
  }

  function BitSum(n: nat, k: nat): nat {
    if k == 0 then 0 else BitSum(n, k - 1) + B(Bit(n, k - 1))
  }

  lemma {:induction false} BitSumShift(n: nat, k: nat)
    requires k > 0
    ensures BitSum(n, k) == n % 2 + BitSum(n / 2, k - 1)
  {
    if k > 1 {
      BitSumShift(n, k - 1);
    }
  }

  /** The positions of the last byte, from its most significant bit on. */
  lemma {:induction false} CountWithin(s: seq<byte>, j: nat)
    requires s != [] && j <= 8
    ensures CountUpTo(s, 8 * |s| - 8 + j) + BitSum(s[|s| - 1], 8 - j)
      == CountUpTo(s, 8 * |s| - 8) + BitSum(s[|s| - 1], 8)
  {
    if j > 0 {
      CountWithin(s, j - 1);
      var p := 8 * |s| - 8 + (j - 1);
      assert p / 8 == |s| - 1 && p % 8 == j - 1;
      assert CountUpTo(s, p + 1) == CountUpTo(s, p) + B(Bit(s[|s| - 1], 8 - j));
    }
  }

  lemma CountLastByte(s: seq<byte>)
    requires s != []
    ensures CountUpTo(s, 8 * |s|) == CountUpTo(s, 8 * |s| - 8) + Ones(s[|s| - 1])
  {
    assert Pow2(8) == 256;
    OnesAreBits(s[|s| - 1], 8);
    CountWithin(s, 8);
  }

  /** Adding up bytes counts the bits one by one. */
  lemma {:induction false} ByteOnesCount(s: seq<byte>)
    ensures ByteOnes(s) == CountUpTo(s, 8 * |s|)
  {
    if s != [] {
      var t := s[..|s| - 1];
      ByteOnesCount(t);
      CountPrefix(t, s, 8 * |t|);
      CountLastByte(s);
    }
  }
}
