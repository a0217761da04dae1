/** Counting set bits: tables, words of 32 bits, and seven words at a time. */
module Popcount {
  import opened Prelude
  import opened Bits
  import opened BitString

  // ---------------------------------------------------------------------------
  // Masks and digits. A word is seen in base 4, then 16, then 256.
  // ---------------------------------------------------------------------------

  /** k digits 1 in base 4; k digits 3 in base 16; k digits 15 in base 256. */
  function Fives(k: nat): nat { if k == 0 then 0 else 4 * Fives(k - 1) + 1 }
  function Threes(k: nat): nat { if k == 0 then 0 else 16 * Threes(k - 1) + 3 }
  function Fs(k: nat): nat { if k == 0 then 0 else 256 * Fs(k - 1) + 15 }

  /** The sum of k digits. */
  function Sum4(n: nat, k: nat): nat { if k == 0 then 0 else n % 4 + Sum4(n / 4, k - 1) }
  function Sum16(n: nat, k: nat): nat { if k == 0 then 0 else n % 16 + Sum16(n / 16, k - 1) }
  function Sum256(n: nat, k: nat): nat { if k == 0 then 0 else n % 256 + Sum256(n / 256, k - 1) }

  /** k digits, all of them small. */
  predicate Small4(n: nat, k: nat) { if k == 0 then n == 0 else n % 4 <= 2 && Small4(n / 4, k - 1) }
  predicate Small16(n: nat, k: nat) { if k == 0 then n == 0 else n % 16 <= 4 && Small16(n / 16, k - 1) }
  predicate Small256(n: nat, k: nat) { if k == 0 then n == 0 else n % 256 <= 8 && Small256(n / 256, k - 1) }

  lemma Masks()
    ensures Fives(16) == 0x5555_5555 && Threes(8) == 0x3333_3333 && Fs(4) == 0x0F0F_0F0F
  {
    assert Fives(4) == 0x55;
    assert Fives(8) == 0x5555;
    assert Fives(12) == 0x55_5555;
    assert Threes(4) == 0x3333;
    assert Threes(6) == 0x33_3333;
  }

  lemma Digit4(q: nat, d: nat, k: nat)
    requires d < 4
    ensures Sum4(4 * q + d, k + 1) == d + Sum4(q, k) && Small4(4 * q + d, k + 1) == (d <= 2 && Small4(q, k))
    ensures (4 * q + d) / 4 == q && (4 * q + d) % 4 == d
  {
  }

  lemma Digit16(q: nat, d: nat, k: nat)
    requires d < 16
    ensures Sum16(16 * q + d, k + 1) == d + Sum16(q, k) && Small16(16 * q + d, k + 1) == (d <= 4 && Small16(q, k))
    ensures (16 * q + d) / 16 == q && (16 * q + d) % 16 == d
  {
  }

  lemma Digit256(q: nat, d: nat, k: nat)
    requires d < 256
    ensures Sum256(256 * q + d, k + 1) == d + Sum256(q, k) && Small256(256 * q + d, k + 1) == (d <= 8 && Small256(q, k))
    ensures (256 * q + d) / 256 == q && (256 * q + d) % 256 == d
  {
  }

  /** Masks work digit by digit. */
  lemma And2(a: nat, r: nat, b: nat, t: nat)
    requires r < 2 && t < 2
    ensures And(2 * a + r, 2 * b + t) == 2 * And(a, b) + r * t
  {
    AndStep(2 * a + r, 2 * b + t);
  }

  lemma Zeros4(a: nat, r: nat, b: nat)
    requires r < 4
    ensures And(4 * a + r, 4 * b) == 4 * And(a, b)
  {
    hide And;
    var u, v := r / 2, r % 2;
    And2(2 * a + u, v, 2 * b, 0);
    And2(a, u, b, 0);
  }

  lemma Threes4(a: nat, r: nat, b: nat)
    requires r < 4
    ensures And(4 * a + r, 4 * b + 3) == 4 * And(a, b) + r
  {
    hide And;
    var u, v := r / 2, r % 2;
    And2(2 * a + u, v, 2 * b + 1, 1);
    And2(a, u, b, 1);
  }

  lemma Low16(a: nat, c: nat, d: nat, b: nat)
    requires c < 4 && d < 4
    ensures And(16 * a + 4 * c + d, 16 * b + 3) == 16 * And(a, b) + d
  {
    hide And;
    Threes4(4 * a + c, d, 4 * b);
    Zeros4(a, c, b);
  }

  lemma Low256(a: nat, c: nat, d: nat, b: nat)
    requires c < 16 && d < 16
    ensures And(256 * a + 16 * c + d, 256 * b + 15) == 256 * And(a, b) + d
  {
    hide And;
    Threes4(64 * a + 4 * c + d / 4, d % 4, 64 * b + 3);
    Threes4(16 * a + c, d / 4, 16 * b);
    Zeros4(4 * a + c / 4, c % 4, 4 * b);
    Zeros4(a, c / 4, b);
  }

  // ---------------------------------------------------------------------------
  // The three steps
  // ---------------------------------------------------------------------------

  lemma OnesOfPair(q: nat, u: nat, v: nat)
    requires u < 2 && v < 2
    ensures Ones(4 * q + 2 * u + v) == v + u + Ones(q)
  {
    var x := 4 * q + 2 * u + v;
    assert x / 2 == 2 * q + u && x % 2 == v;
    assert (2 * q + u) / 2 == q && (2 * q + u) % 2 == u;
  }

  lemma PairMask(q: nat, u: nat, v: nat, m: nat)
    requires u < 2 && v < 2
    ensures And((4 * q + 2 * u + v) / 2, 4 * m + 1) == 4 * And(q / 2, m) + u
  {
    hide And;
    assert (4 * q + 2 * u + v) / 2 == 2 * q + u;
    And2(q, u, 2 * m, 1);
    And2(q / 2, q % 2, m, 0);
  }

  /** Subtracting every pair's high bit leaves the number of ones of every pair; nothing is borrowed. */
  lemma {:induction false} CountPairs(x: nat, k: nat)
    requires x < Pow2(2 * k)
    ensures And(x / 2, Fives(k)) <= x
    ensures Small4(x - And(x / 2, Fives(k)), k) && Sum4(x - And(x / 2, Fives(k)), k) == Ones(x)
  {
    if k == 0 {
      assert Pow2(0) == 1;
    } else {
      var q, u, v := SplitPair(x, k);
      CountPairs(q, k - 1);
      PairStep(q, u, v, Fives(k - 1), k - 1);
    }
  }

  lemma SplitPair(x: nat, k: nat) returns (q: nat, u: nat, v: nat)
    requires k > 0 && x < Pow2(2 * k)
    ensures u < 2 && v < 2 && x == 4 * q + 2 * u + v && q < Pow2(2 * (k - 1))
  {
    q, u, v := x / 4, x / 2 % 2, x % 2;
    assert Pow2(2 * k) == 4 * Pow2(2 * (k - 1));
  }

  lemma PairStep(q: nat, u: nat, v: nat, m: nat, k: nat)
    requires u < 2 && v < 2 && And(q / 2, m) <= q
    requires Small4(q - And(q / 2, m), k) && Sum4(q - And(q / 2, m), k) == Ones(q)
    ensures
      var x := 4 * q + 2 * u + v;
      var a := And(x / 2, 4 * m + 1);
      a <= x && Small4(x - a, k + 1) && Sum4(x - a, k + 1) == Ones(x)
  {
    hide And, Ones, Sum4, Small4;
    PairMask(q, u, v, m);
    OnesOfPair(q, u, v);
    Digit4(q - And(q / 2, m), u + v, k);
  }

  /** Adding neighbouring pairs: the digits stay below 16. */
  lemma {:induction false} CountNibbles(y: nat, k: nat)
    requires Small4(y, 2 * k)
    ensures
      var z := And(y, Threes(k)) + And(y / 4, Threes(k));
      Small16(z, k) && Sum16(z, k) == Sum4(y, 2 * k)
  {
    hide And, Sum4, Small4, Sum16, Small16;
    if k == 0 {
      NoNibbles(y);
    } else {
      var q, c, d := SplitNibble(y, k);
      CountNibbles(q, k - 1);
      NibbleStep(q, c, d, Threes(k - 1), k - 1);
    }
  }

  lemma NoNibbles(y: nat)
    requires Small4(y, 0)
    ensures
      var z := And(y, Threes(0)) + And(y / 4, Threes(0));
      Small16(z, 0) && Sum16(z, 0) == Sum4(y, 0)
  {
  }

  lemma SplitNibble(y: nat, k: nat) returns (q: nat, c: nat, d: nat)
    requires k > 0 && Small4(y, 2 * k)
    ensures c <= 2 && d <= 2 && y == 16 * q + 4 * c + d && Small4(q, 2 * (k - 1))
  {
    q, c, d := y / 4 / 4, y / 4 % 4, y % 4;
  }

  lemma NibbleStep(q: nat, c: nat, d: nat, m: nat, k: nat)
    requires c <= 2 && d <= 2
    requires Small16(And(q, m) + And(q / 4, m), k) && Sum16(And(q, m) + And(q / 4, m), k) == Sum4(q, 2 * k)
    ensures
      var y := 16 * q + 4 * c + d;
      var z := And(y, 16 * m + 3) + And(y / 4, 16 * m + 3);
      Small16(z, k + 1) && Sum16(z, k + 1) == Sum4(y, 2 * k + 2)
  {
    hide And, Sum4, Small4, Sum16, Small16;
    Digit4(4 * q + c, d, 2 * k + 1);
    Digit4(q, c, 2 * k);
    Low16(q, c, d, m);
    Low16(q / 4, q % 4, c, m);
    assert 16 * (q / 4) + 4 * (q % 4) + c == 4 * q + c;
    Digit16(And(q, m) + And(q / 4, m), c + d, k);
  }

  /** Adding neighbouring nibbles: each sum is at most 8, so nothing is carried. */
  lemma {:induction false} CountBytes(z: nat, k: nat)
    requires Small16(z, 2 * k)
    ensures
      var w := And(z + z / 16, Fs(k));
      Small256(w, k) && Sum256(w, k) == Sum16(z, 2 * k)
  {
    if k > 0 {
      var q, h, l := SplitByte(z, k);
      CountBytes(q, k - 1);
      NextNibble(q, 2 * (k - 1));
      ByteStep(q, h, l, Fs(k - 1), k - 1);
    }
  }

  lemma SplitByte(z: nat, k: nat) returns (q: nat, h: nat, l: nat)
    requires k > 0 && Small16(z, 2 * k)
    ensures h <= 4 && l <= 4 && z == 256 * q + 16 * h + l && Small16(q, 2 * (k - 1))
  {
    q, h, l := z / 16 / 16, z / 16 % 16, z % 16;
  }

  lemma ByteStep(q: nat, h: nat, l: nat, m: nat, k: nat)
    requires h <= 4 && l <= 4 && q % 16 <= 4
    requires Small256(And(q + q / 16, m), k) && Sum256(And(q + q / 16, m), k) == Sum16(q, 2 * k)
    ensures
      var z := 256 * q + 16 * h + l;
      var w := And(z + z / 16, 256 * m + 15);
      Small256(w, k + 1) && Sum256(w, k + 1) == Sum16(z, 2 * k + 2)
  {
    hide And, Sum16, Small16, Sum256, Small256;
    Digit16(16 * q + h, l, 2 * k + 1);
    Digit16(q, h, 2 * k);
    var g, f := q / 16, q % 16;
    assert 16 * q + h == 16 * (16 * g + f) + h;
    Low256(q + g, f + h, h + l, m);
    assert 256 * (q + g) + 16 * (f + h) + (h + l) == 256 * q + 16 * h + l + (16 * q + h);
    Digit256(And(q + g, m), h + l, k);
  }

  lemma NextNibble(n: nat, k: nat)
    requires Small16(n, k)
    ensures n % 16 <= 4
  {
  }

  // ---------------------------------------------------------------------------
  // One word, and seven words
  // ---------------------------------------------------------------------------

  type uint32 = w: nat | w < 0x1_0000_0000

  /** Arithmetic of 32-bit words. */
  function Mod32(x: int): uint32 {
    x % 0x1_0000_0000
  }

  lemma NoWrap(x: nat)
    requires x < 0x1_0000_0000
    ensures Mod32(x) == x
  {
  }

  /** A word whose bytes are the numbers of ones of the bytes of the given word. */
  function ByteCounts(aux: uint32): nat {
    var a := Mod32(aux - And(aux / 2, 0x5555_5555));
    var b := Mod32(And(a, 0x3333_3333) + And(a / 4, 0x3333_3333));
    And(Mod32(b + b / 16), 0x0F0F_0F0F)
  }

  lemma {:induction false} Small16Bound(n: nat, k: nat)
    requires Small16(n, k)
    ensures 2 * n < Pow2(4 * k)
  {
    if k > 0 {
      Small16Bound(n / 16, k - 1);
      Pow16(k);
    }
  }

  lemma {:induction false} Pow16(k: nat)
    requires k > 0
    ensures Pow2(4 * k) == 16 * Pow2(4 * (k - 1))
  {
    TwoMore(4 * (k - 1));
    TwoMore(4 * (k - 1) + 2);
    hide Pow2;
    assert 4 * k == 4 * (k - 1) + 2 + 2;
  }

  lemma {:induction false} TwoMore(j: nat)
    ensures Pow2(j + 2) == 4 * Pow2(j)
  {
    assert Pow2(j + 1) == 2 * Pow2(j);
  }

  lemma ByteCountsSum(aux: uint32)
    ensures Small256(ByteCounts(aux), 4) && Sum256(ByteCounts(aux), 4) == Ones(aux)
  {
    hide And, Ones, Sum4, Small4, Sum16, Small16, Sum256, Small256, Fives, Threes, Fs, Pow2, Mod32;
    Masks();
    Pow2Of32();
    CountPairs(aux, 16);
    var a := aux - And(aux / 2, 0x5555_5555);
    NoWrap(a);
    CountNibbles(a, 8);
    var b := And(a, 0x3333_3333) + And(a / 4, 0x3333_3333);
    Small16Bound(b, 8);
    NoWrap(b);
    NoWrap(b + b / 16);
    CountBytes(b, 4);
  }

  lemma Pow2Of32()
    ensures Pow2(32) == 0x1_0000_0000
  {
    assert Pow2(8) == 0x100;
    assert Pow2(16) == 0x1_0000;
    assert Pow2(24) == 0x100_0000;
  }

  /** Four bytes of which each is at most 8. */
  lemma FourBytes(w: nat) returns (t: seq<nat>)
    requires Small256(w, 4)
    ensures |t| == 4 && w == t[0] + 0x100 * t[1] + 0x1_0000 * t[2] + 0x100_0000 * t[3]
    ensures t[0] <= 8 && t[1] <= 8 && t[2] <= 8 && t[3] <= 8
    ensures Sum256(w, 4) == t[0] + t[1] + t[2] + t[3]
  {
    var a, b, c := w / 256, w / 256 / 256, w / 256 / 256 / 256;
    t := [w % 256, a % 256, b % 256, c % 256];
    assert Small256(a, 3) && Small256(b, 2) && Small256(c, 1) && Small256(c / 256, 0);
    assert Sum256(w, 4) == w % 256 + Sum256(a, 3);
    assert Sum256(a, 3) == a % 256 + Sum256(b, 2);
    assert Sum256(b, 2) == b % 256 + Sum256(c, 1);
  }

  /** Multiplying by 0x01010101 adds the bytes up in the top byte; they sum to at most 224, so it does not overflow. */
  lemma MultiplyAddsBytes(t0: nat, t1: nat, t2: nat, t3: nat)
    requires t0 + t1 + t2 + t3 <= 224
    ensures
      var w := t0 + 0x100 * t1 + 0x1_0000 * t2 + 0x100_0000 * t3;
      w * 0x0101_0101 % 0x1_0000_0000 / 0x100_0000 == t0 + t1 + t2 + t3
  {
    var low := t0 + 0x100 * (t0 + t1) + 0x1_0000 * (t0 + t1 + t2);
    var high := t1 + t2 + t3 + 0x100 * (t2 + t3) + 0x1_0000 * t3;
    TopByte(low, t0 + t1 + t2 + t3, high);
  }

  lemma TopByte(low: nat, top: nat, high: nat)
    requires low < 0x100_0000 && top < 0x100
    ensures (low + 0x100_0000 * top + 0x1_0000_0000 * high) % 0x1_0000_0000 / 0x100_0000 == top
  {
    var n := low + 0x100_0000 * top + 0x1_0000_0000 * high;
    DivUnique(n, 0x1_0000_0000, high, low + 0x100_0000 * top);
    DivUnique(low + 0x100_0000 * top, 0x100_0000, top, low);
  }

  /** The value added for seven words, in the arithmetic of 32-bit words. */
  function SevenWords(aux: seq<uint32>): nat
    requires |aux| == 7
  {
    var sum := Mod32(ByteCounts(aux[0]) + ByteCounts(aux[1]) + ByteCounts(aux[2]) + ByteCounts(aux[3])
      + ByteCounts(aux[4]) + ByteCounts(aux[5]) + ByteCounts(aux[6]));
    Mod32(sum * 0x0101_0101) / 0x100_0000
  }

  lemma SevenWordsCount(aux: seq<uint32>)
    requires |aux| == 7
    ensures SevenWords(aux) ==
            Ones(aux[0]) + Ones(aux[1]) + Ones(aux[2]) + Ones(aux[3]) + Ones(aux[4]) + Ones(aux[5]) + Ones(aux[6])
  {
    hide ByteCounts, Ones;
    var r := AddWord(aux[0], 0, 0, 0, 0, 0);
    r := AddWord(aux[1], 1, r.0, r.1, r.2, r.3);
    r := AddWord(aux[2], 2, r.0, r.1, r.2, r.3);
    r := AddWord(aux[3], 3, r.0, r.1, r.2, r.3);
    r := AddWord(aux[4], 4, r.0, r.1, r.2, r.3);
    r := AddWord(aux[5], 5, r.0, r.1, r.2, r.3);
    r := AddWord(aux[6], 6, r.0, r.1, r.2, r.3);
    MultiplyAddsBytes(r.0, r.1, r.2, r.3);
    var w := r.0 + 0x100 * r.1 + 0x1_0000 * r.2 + 0x100_0000 * r.3;
    NoWrap(w);
  }

  lemma AddWord(aux: uint32, n: nat, s0: nat, s1: nat, s2: nat, s3: nat) returns (r: (nat, nat, nat, nat))
    requires s0 <= 8 * n && s1 <= 8 * n && s2 <= 8 * n && s3 <= 8 * n
    ensures r.0 <= 8 * n + 8 && r.1 <= 8 * n + 8 && r.2 <= 8 * n + 8 && r.3 <= 8 * n + 8
    ensures r.0 + 0x100 * r.1 + 0x1_0000 * r.2 + 0x100_0000 * r.3 ==
            s0 + 0x100 * s1 + 0x1_0000 * s2 + 0x100_0000 * s3 + ByteCounts(aux)
    ensures r.0 + r.1 + r.2 + r.3 == s0 + s1 + s2 + s3 + Ones(aux)
  {
    hide ByteCounts, Ones;
    ByteCountsSum(aux);
    var t := FourBytes(ByteCounts(aux));
    r := (s0 + t[0], s1 + t[1], s2 + t[2], s3 + t[3]);
  }

  // ---------------------------------------------------------------------------
  // The whole string
  // ---------------------------------------------------------------------------

  /** A word as a little-endian machine reads it. */
  function Word32(s: seq<byte>, i: nat): uint32
    requires i + 4 <= |s|
  {
    var b0: nat, b1: nat, b2: nat, b3: nat := s[i], s[i + 1], s[i + 2], s[i + 3];
    b0 + 0x100 * b1 + 0x1_0000 * b2 + 0x100_0000 * b3
  }

  lemma OnesOfByteAnd(q: nat, b: byte)
    ensures Ones(256 * q + b) == Ones(q) + Ones(b)
  {
    hide Ones;
    var p0, p1, p2, p3 := PairsOf(b);
    FourPairs(q, p0, p1, p2, p3);
    FourPairs(0, p0, p1, p2, p3);
    NoOnes();
  }

  lemma PairsOf(b: byte) returns (p0: nat, p1: nat, p2: nat, p3: nat)
    ensures p0 < 4 && p1 < 4 && p2 < 4 && p3 < 4 && b == 64 * p3 + 16 * p2 + 4 * p1 + p0
  {
    var q, r := b / 4, b / 16;
    p0, p1, p2, p3 := b % 4, q % 4, r % 4, r / 4;
    assert b == 4 * q + p0 && q == 4 * r + p1 && r == 4 * p3 + p2;
  }

  lemma NoOnes()
    ensures Ones(0) == 0
  {
  }

  lemma FourPairs(q: nat, p0: nat, p1: nat, p2: nat, p3: nat)
    requires p0 < 4 && p1 < 4 && p2 < 4 && p3 < 4
    ensures Ones(256 * q + 64 * p3 + 16 * p2 + 4 * p1 + p0) ==
            Ones(q) + p0 / 2 + p0 % 2 + p1 / 2 + p1 % 2 + p2 / 2 + p2 % 2 + p3 / 2 + p3 % 2
  {
    hide Ones;
    OnesOfPair(64 * q + 16 * p3 + 4 * p2 + p1, p0 / 2, p0 % 2);
    OnesOfPair(16 * q + 4 * p3 + p2, p1 / 2, p1 % 2);
    OnesOfPair(4 * q + p3, p2 / 2, p2 % 2);
    OnesOfPair(q, p3 / 2, p3 % 2);
  }

  lemma OnesOfWord(s: seq<byte>, i: nat)
    requires i + 4 <= |s|
    ensures Ones(Word32(s, i)) == Ones(s[i]) + Ones(s[i + 1]) + Ones(s[i + 2]) + Ones(s[i + 3])
  {
    hide Ones;
    var b1: nat, b2: nat, b3: nat := s[i + 1], s[i + 2], s[i + 3];
    OnesOfByteAnd(b1 + 0x100 * b2 + 0x1_0000 * b3, s[i]);
    OnesOfByteAnd(b2 + 0x100 * b3, s[i + 1]);
    OnesOfByteAnd(b3, s[i + 2]);
  }

  lemma NextByte(s: seq<byte>, i: nat)
    requires i < |s|
    ensures ByteOnes(s[..i + 1]) == ByteOnes(s[..i]) + Ones(s[i])
  {
    assert s[..i + 1][..i] == s[..i];
  }

  lemma NextWord(s: seq<byte>, i: nat)
    requires i + 4 <= |s|
    ensures ByteOnes(s[..i + 4]) == ByteOnes(s[..i]) + Ones(Word32(s, i))
  {
    hide ByteOnes, Ones;
    OnesOfWord(s, i);
    NextByte(s, i);
    NextByte(s, i + 1);
    NextByte(s, i + 2);
    NextByte(s, i + 3);
  }

  lemma NextSevenWords(s: seq<byte>, i: nat)
    requires i + 28 <= |s|
    ensures ByteOnes(s[..i + 28]) == ByteOnes(s[..i]) +
            SevenWords([Word32(s, i), Word32(s, i + 4), Word32(s, i + 8), Word32(s, i + 12), Word32(s, i + 16),
              Word32(s, i + 20), Word32(s, i + 24)])
  {
    hide ByteOnes, Ones, SevenWords, Word32;
    NextWord(s, i);
    NextWord(s, i + 4);
    NextWord(s, i + 8);
    NextWord(s, i + 12);
    NextWord(s, i + 16);
    NextWord(s, i + 20);
    NextWord(s, i + 24);
    SevenWordsCount([Word32(s, i), Word32(s, i + 4), Word32(s, i + 8), Word32(s, i + 12), Word32(s, i + 16),
      Word32(s, i + 20), Word32(s, i + 24)]);
  }

  /** The table bitsinbyte. */
  function BitsInByte(b: byte): nat {
    Ones(b)
  }

  /** redisPopcount of a string at any address counts its bits one by one. */
  method RedisPopcount(s: seq<byte>, address: nat) returns (bits: nat)
    ensures bits == CountUpTo(s, 8 * |s|)
  {
    hide Ones, SevenWords, Word32, ByteOnes, CountUpTo;
    bits := 0;
    var i: nat, count: nat := 0, |s|;
    assert ByteOnes(s[..0]) == 0 by { NoBytes(s); }
    while (address + i) % 4 != 0 && count > 0
      invariant i + count == |s| && bits == ByteOnes(s[..i])
      decreases count
    {
      NextByte(s, i);
      bits := bits + BitsInByte(s[i]);
      i, count := i + 1, count - 1;
    }
    while count >= 28
      invariant i + count == |s| && bits == ByteOnes(s[..i])
    {
      NextSevenWords(s, i);
      bits := bits + SevenWords([Word32(s, i), Word32(s, i + 4), Word32(s, i + 8), Word32(s, i + 12), Word32(s, i + 16),
        Word32(s, i + 20), Word32(s, i + 24)]);
      i, count := i + 28, count - 28;
    }
    while count > 0
      invariant i + count == |s| && bits == ByteOnes(s[..i])
    {
      NextByte(s, i);
      bits := bits + BitsInByte(s[i]);
      i, count := i + 1, count - 1;
    }
    assert s[..i] == s;
    ByteOnesCount(s);
  }

  lemma NoBytes(s: seq<byte>)
    ensures ByteOnes(s[..0]) == 0
  {
  }
}
