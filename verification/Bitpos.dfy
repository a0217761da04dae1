/** Finding the first bit of a value, skipping whole words. */
module Bitpos {
  import opened Prelude
  import opened Bits
  import opened BitString

  const ULONG_MAX: nat := 0xffff_ffff_ffff_ffff

  // ---------------------------------------------------------------------------
  // Words
  // ---------------------------------------------------------------------------

  lemma BitUp(a: nat, r: nat, i: nat)
    requires r < 2
    ensures Bit(2 * a + r, i + 1) == Bit(a, i)
  {
  }

  /** The bits of a number with a byte appended. */
  lemma BitHigh(w: nat, b: byte, x: nat)
    ensures Bit(256 * w + b, 8 + x) == Bit(w, x)
  {
    hide Bit;
    var h, l := b / 16, b % 16;
    BitHigh4(16 * w + h, l, x + 4);
    BitHigh4(w, h, x);
    assert 16 * (16 * w + h) + l == 256 * w + b;
  }

  lemma BitHigh4(w: nat, b: nat, x: nat)
    requires b < 16
    ensures Bit(16 * w + b, 4 + x) == Bit(w, x)
  {
    hide Bit;
    BitUp(8 * w + b / 2, b % 2, x + 3);
    BitUp(4 * w + b / 4, b / 2 % 2, x + 2);
    BitUp(2 * w + b / 8, b / 4 % 2, x + 1);
    BitUp(w, b / 8, x);
  }

  lemma {:induction false} BitLow(w: nat, b: nat, k: nat, y: nat)
    requires y < k
    ensures Bit(Pow2(k) * w + b, y) == Bit(b, y)
  {
    var p := Pow2(k - 1);
    assert Pow2(k) * w == 2 * (p * w);
    if y > 0 {
      BitLow(w, b / 2, k - 1, y - 1);
      assert (2 * (p * w) + b) / 2 == p * w + b / 2;
    }
  }

  function ByteOr0(s: seq<byte>, i: nat): byte {
    if i < |s| then s[i] else 0
  }

  /** j bytes from i on, the first one most significant, zero padded. */
  function Load(s: seq<byte>, i: nat, j: nat): nat {
    if j == 0 then 0 else 256 * Load(s, i, j - 1) + ByteOr0(s, i + j - 1)
  }

  lemma {:induction false} LoadBit(s: seq<byte>, i: nat, j: nat, q: nat)
    requires q < 8 * j
    ensures Bit(Load(s, i, j), 8 * j - 1 - q) == PaddedBit(s, 8 * i + q)
  {
    var w, b := Load(s, i, j - 1), ByteOr0(s, i + j - 1);
    if q < 8 * (j - 1) {
      LoadBit(s, i, j - 1, q);
      BitHigh(w, b, 8 * (j - 1) - 1 - q);
    } else {
      var r := q - 8 * (j - 1);
      assert Pow2(8) == 256;
      BitLow(w, b, 8, 7 - r);
      var p := 8 * i + q;
      assert p / 8 == i + j - 1 && p % 8 == r;
      ZeroHasNoBits(7 - r);
    }
  }

  lemma {:induction false} LoadBound(s: seq<byte>, i: nat, j: nat)
    ensures Load(s, i, j) < Pow2(8 * j)
  {
    if j > 0 {
      LoadBound(s, i, j - 1);
      Pow256(j);
    }
  }

  lemma Pow256(j: nat)
    requires j > 0
    ensures Pow2(8 * j) == 256 * Pow2(8 * (j - 1))
  {
    assert Pow2(8 * j) == 4 * Pow2(8 * j - 2);
    assert Pow2(8 * j - 2) == 4 * Pow2(8 * j - 4);
    assert Pow2(8 * j - 4) == 4 * Pow2(8 * j - 6);
    assert Pow2(8 * j - 6) == 4 * Pow2(8 * j - 8);
  }

  /** A word of eight bytes as a little-endian machine reads it. */
  function Word64(s: seq<byte>, i: nat, k: nat): nat
    requires i + k <= |s|
    decreases k
  {
    if k == 0 then 0 else s[i] as nat + 256 * Word64(s, i + 1, k - 1)
  }

  /** A word of zero bytes is 0, a word of 255s the greatest word, and no other words are. */
  lemma {:induction false} WordOf(s: seq<byte>, i: nat, k: nat, skip: byte)
    requires i + k <= |s| && (skip == 0 || skip == 255)
    ensures Word64(s, i, k) < Pow2(8 * k)
    ensures Word64(s, i, k) == (if skip == 0 then 0 else Pow2(8 * k) - 1) <==>
      forall j :: i <= j < i + k ==> s[j] == skip
    decreases k
  {
    if k > 0 {
      WordOf(s, i + 1, k - 1, skip);
      Pow256(k);
      assert (forall j :: i <= j < i + k ==> s[j] == skip) <==>
        s[i] == skip && forall j :: i + 1 <= j < i + 1 + (k - 1) ==> s[j] == skip;
    }
  }

  // ---------------------------------------------------------------------------
  // Single bits
  // ---------------------------------------------------------------------------

  lemma {:induction false} OnesEverywhere(k: nat, i: nat)
    requires i < k
    ensures Bit(Pow2(k) - 1, i)
  {
    if i > 0 {
      OnesEverywhere(k - 1, i - 1);
    }
  }

  lemma SkippedByte(b: byte, bit: bool, i: nat)
    requires b == (if bit then 0 else 255) && i < 8
    ensures Bit(b, i) != bit
  {
    assert Pow2(8) == 256;
    if bit {
      ZeroHasNoBits(i);
    } else {
      OnesEverywhere(8, i);
    }
  }

  /** Every other byte has a matching bit. */
  lemma OtherByte(b: byte, bit: bool) returns (i: nat)
    requires b != if bit then 0 else 255
    ensures i < 8 && Bit(b, i) == bit
  {
    assert Pow2(8) == 256;
    var skip: byte := if bit then 0 else 255;
    if forall j :: 0 <= j < 8 ==> Bit(b, j) == Bit(skip, j) {
      SameBits(b, skip, 8);
    }
    i :| 0 <= i < 8 && Bit(b, i) != Bit(skip, i);
    SkippedByte(skip, bit, i);
  }

  /** Skipped bytes hold no matching bit. */
  lemma SkippedBits(s: seq<byte>, i: nat, bit: bool)
    requires i <= |s| && forall k :: 0 <= k < i ==> s[k] == if bit then 0 else 255
    ensures forall p :: 0 <= p < 8 * i ==> PaddedBit(s, p) != bit
  {
    forall p | 0 <= p < 8 * i
      ensures PaddedBit(s, p) != bit
    {
      SkippedByte(s[p / 8], bit, 7 - p % 8);
    }
  }

  /** Where skipping stops: fewer than eight bytes are left, or one of the next eight is not to be skipped. */
  ghost predicate Stops(s: seq<byte>, i: nat, skip: byte) {
    |s| - i < 8 || exists k :: i <= k < i + 8 && k < |s| && s[k] != skip
  }

  /** The loaded word is zero only if no bit of the rest of the string is set. */
  lemma NothingSet(s: seq<byte>, i: nat)
    requires i <= |s| && Stops(s, i, 0) && Load(s, i, 8) == 0
    ensures forall p :: 8 * i <= p < 8 * |s| ==> !BitAt(s, p)
  {
    forall p | 8 * i <= p < 8 * |s| && p < 8 * i + 64
      ensures !BitAt(s, p)
    {
      LoadBit(s, i, 8, p - 8 * i);
      ZeroHasNoBits(63 - (p - 8 * i));
    }
    if |s| - i >= 8 {
      var k :| i <= k < i + 8 && k < |s| && s[k] != 0;
      MatchInByte(s, k, true);
    }
  }

  lemma MatchInByte(s: seq<byte>, k: nat, bit: bool)
    requires k < |s| && s[k] != if bit then 0 else 255
    ensures exists p :: 8 * k <= p < 8 * k + 8 && PaddedBit(s, p) == bit
  {
    var i := OtherByte(s[k], bit);
    var p := 8 * k + 7 - i;
    assert p / 8 == k && p % 8 == 7 - i;
    assert PaddedBit(s, p) == bit;
  }

  /** A matching bit is among the 64 that were loaded, so the final scan finds it. */
  lemma MatchExists(s: seq<byte>, i: nat, bit: bool)
    requires i <= |s| && Stops(s, i, if bit then 0 else 255) && (bit ==> Load(s, i, 8) != 0)
    ensures exists p :: 8 * i <= p < 8 * i + 64 && PaddedBit(s, p) == bit
  {
    if bit {
      LoadBound(s, i, 8);
      if forall j :: 0 <= j < 64 ==> !Bit(Load(s, i, 8), j) {
        forall j | 0 <= j < 64
          ensures Bit(Load(s, i, 8), j) == Bit(0, j)
        {
          ZeroHasNoBits(j);
        }
        SameBits(Load(s, i, 8), 0, 64);
      }
      var j :| 0 <= j < 64 && Bit(Load(s, i, 8), j);
      LoadBit(s, i, 8, 63 - j);
      assert PaddedBit(s, 8 * i + (63 - j));
    } else if |s| - i < 8 {
      assert !PaddedBit(s, 8 * i + 8 * (|s| - i));
    } else {
      var k :| i <= k < i + 8 && k < |s| && s[k] != 255;
      MatchInByte(s, k, bit);
      var p :| 8 * k <= p < 8 * k + 8 && PaddedBit(s, p) == bit;
    }
  }

  // ---------------------------------------------------------------------------
  // redisBitpos
  // ---------------------------------------------------------------------------

  ghost predicate NoneBefore(s: seq<byte>, p: nat, bit: bool) {
    forall q :: 0 <= q < p ==> PaddedBit(s, q) != bit
  }

  /** Skips bytes up to an aligned address, then words. */
  method Skip(s: seq<byte>, address: nat, bit: bool) returns (i: nat)
    ensures i <= |s| && NoneBefore(s, 8 * i, bit) && Stops(s, i, if bit then 0 else 255)
  {
    hide Word64, PaddedBit;
    var skip: byte := if bit then 0 else 255;
    i := 0;
    var count: nat := |s|;
    var found := false;
    while (address + i) % 8 != 0 && count > 0
      invariant i + count == |s| && !found && forall k :: 0 <= k < i ==> s[k] == skip
      decreases count
    {
      if s[i] != skip {
        found := true;
        break;
      }
      i, count := i + 1, count - 1;
    }
    if !found {
      var skipWord := if bit then 0 else ULONG_MAX;
      while count >= 8
        invariant i + count == |s| && forall k :: 0 <= k < i ==> s[k] == skip
      {
        Pow2Of64();
        WordOf(s, i, 8, skip);
        if Word64(s, i, 8) != skipWord { break; }
        i, count := i + 8, count - 8;
      }
    }
    SkippedBits(s, i, bit);
  }

  /** Loads up to eight bytes, the first most significant, padding with zeros on the right. */
  method LoadWord(s: seq<byte>, start: nat) returns (word: nat)
    requires start <= |s|
    ensures word == Load(s, start, 8)
  {
    hide Or;
    word := 0;
    var i, count := start, |s| - start;
    for j := 0 to 8
      invariant word == Load(s, start, j) && i == Min(start + j, |s|) && count == |s| - i
    {
      LoadBound(s, start, j);
      ShiftFits(word, j);
      word := word * 256 % (ULONG_MAX + 1);
      if count > 0 {
        OrByte(word / 256, s[i]);
        word := Or(word, s[i]);
        i, count := i + 1, count - 1;
      }
    }
  }

  lemma ShiftFits(w: nat, j: nat)
    requires w < Pow2(8 * j) && j < 8
    ensures w * 256 % (ULONG_MAX + 1) == 256 * w
  {
    Pow256(j + 1);
    Pow2Of64();
    Pow2Mono(8 * (j + 1), 64);
  }

  lemma OrByte(w: nat, b: byte)
    ensures Or(256 * w, b) == 256 * w + b
  {
    hide Or;
    var h: nat, l: nat := b / 16, b % 16;
    OrNibble(16 * w, h, l);
    OrNibble(w, 0, h);
    OrZero(w);
  }

  lemma OrZero(w: nat)
    ensures Or(w, 0) == w
  {
  }

  lemma OrNibble(w: nat, q: nat, b: nat)
    requires b < 16
    ensures Or(16 * w, 16 * q + b) == 16 * Or(w, q) + b
  {
    hide Or;
    Or2(8 * w, 8 * q + b / 2, b % 2);
    Or2(4 * w, 4 * q + b / 4, b / 2 % 2);
    Or2(2 * w, 2 * q + b / 8, b / 4 % 2);
    Or2(w, q, b / 8);
  }

  lemma Or2(a: nat, b: nat, t: nat)
    requires t < 2
    ensures Or(2 * a, 2 * b + t) == 2 * Or(a, b) + t
  {
  }

  method RedisBitpos(s: seq<byte>, address: nat, bit: bool) returns (pos: int)
    ensures pos == -1 <==> bit && forall p :: 0 <= p < 8 * |s| ==> !BitAt(s, p)
    ensures pos != -1 ==> pos >= 0 && PaddedBit(s, pos) == bit && NoneBefore(s, pos, bit)
  {
    hide Load;
    var i := Skip(s, address, bit);
    var word := LoadWord(s, i);
    if bit && word == 0 {
      NothingSet(s, i);
      forall p | 0 <= p < 8 * i ensures !BitAt(s, p) { assert PaddedBit(s, p) != bit; }
      return -1;
    }
    MatchExists(s, i, bit);
    pos := Scan(s, i, word, bit);
  }

  /** Scans the loaded word bit by bit; the end is never reached. */
  method Scan(s: seq<byte>, i: nat, word: nat, bit: bool) returns (pos: int)
    requires word == Load(s, i, 8) && NoneBefore(s, 8 * i, bit)
    requires exists p :: 8 * i <= p < 8 * i + 64 && PaddedBit(s, p) == bit
    ensures pos >= 0 && PaddedBit(s, pos) == bit && NoneBefore(s, pos, bit)
  {
    hide And, Bit, Load, PaddedBit;
    pos := 8 * i;
    var one := Pow2(63);
    ghost var k := 0;
    while one != 0
      invariant 0 <= k <= 64 && pos == 8 * i + k && NoneBefore(s, pos, bit)
        && one == if k == 64 then 0 else Pow2(63 - k)
      decreases one
    {
      AndOneBit(63 - k, word);
      LoadBit(s, i, 8, k);
      if (And(one, word) != 0) == bit {
        return;
      }
      pos := pos + 1;
      k := k + 1;
      one := one / 2;
    }
    assert false;
  }
}
