/** Overflow of bit fields of 1 to 63 bits, in the arithmetic of 64-bit integers. */
module BitfieldOverflow {
  import opened Prelude
  import opened Bits

  datatype Overflow = Wrap | Sat | Fail

  const TWO63: nat := 0x8000_0000_0000_0000
  const TWO64: nat := 0x1_0000_0000_0000_0000

  type int64 = x: int | -0x8000_0000_0000_0000 <= x < 0x8000_0000_0000_0000
  type uint64 = x: int | 0 <= x < 0x1_0000_0000_0000_0000

  /** Conversions between the two, and overflowing signed arithmetic: two's complement. */
  function Signed64(x: int): int64 {
    (x + TWO63) % TWO64 - TWO63
  }

  function Unsigned64(x: int): uint64 {
    x % TWO64
  }

  predicate Width(bits: nat) {
    1 <= bits <= 63
  }

  // ---------------------------------------------------------------------------
  // What the fields can hold
  // ---------------------------------------------------------------------------

  function Lowest(signed: bool, bits: nat): int
    requires Width(bits)
  {
    if signed then 0 - Pow2(bits - 1) else 0
  }

  function Highest(signed: bool, bits: nat): int
    requires Width(bits)
  {
    if signed then Pow2(bits - 1) - 1 else Pow2(bits) - 1
  }

  predicate Fits(v: int, signed: bool, bits: nat)
    requires Width(bits)
  {
    Lowest(signed, bits) <= v <= Highest(signed, bits)
  }

  /** The number a field of these bits stands for. */
  function Meaning(field: nat, signed: bool, bits: nat): int
    requires Width(bits)
  {
    if signed && field >= Pow2(bits - 1) then field - Pow2(bits) else field
  }

  /** What is to be stored for v: v itself, its residue, the nearest bound, or nothing. */
  function Bounded(v: int, signed: bool, bits: nat, ow: Overflow): Option<int>
    requires Width(bits)
  {
    if Fits(v, signed, bits) then Some(v)
    else match ow
      case Wrap => Some(Meaning(v % Pow2(bits), signed, bits))
      case Sat => Some(if v > Highest(signed, bits) then Highest(signed, bits) else Lowest(signed, bits))
      case Fail => None
  }

  lemma Powers(bits: nat)
    requires Width(bits)
    ensures Pow2(bits) == 2 * Pow2(bits - 1) && Pow2(bits) <= TWO63
  {
    Pow2Mono(bits, 63);
    Pow2Of64();
    assert Pow2(64) == 2 * Pow2(63);
  }

  // ---------------------------------------------------------------------------
  // checkUnsignedBitfieldOverflow and checkSignedBitfieldOverflow
  // ---------------------------------------------------------------------------

  /** The direction of the overflow, and the limit; with Fail no limit is set. */
  function CheckUnsigned(value: uint64, incr: int64, bits: nat, ow: Overflow): (int, int)
    requires Width(bits)
  {
    var max := Pow2(bits) - 1;
    var maxincr := Signed64(Unsigned64(max - value));
    var minincr := Signed64(Unsigned64(0 - value));
    var wrapped := And(Unsigned64(value + incr), Pow2(bits) - 1);
    if value > max || (incr > 0 && incr > maxincr) then
      (1, match ow case Wrap => wrapped case Sat => max case Fail => 0)
    else if incr < 0 && incr < minincr then
      (if ow == Wrap then 1 else -1, match ow case Wrap => wrapped case Sat => 0 case Fail => 0)
    else (0, 0)
  }

  function CheckSigned(value: int64, incr: int64, bits: nat, ow: Overflow): (int, int)
    requires Width(bits)
  {
    var max := Pow2(bits - 1) - 1;
    var min := -max - 1;
    var maxincr := Signed64(max - value);
    var minincr := Signed64(min - value);
    if value > max || incr > maxincr || (value >= 0 && incr > 0 && incr > maxincr) then
      (1, match ow case Wrap => WrapSigned(value, incr, bits) case Sat => max case Fail => 0)
    else if value < min || incr < minincr || (value < 0 && incr < 0 && incr < minincr) then
      (if ow == Wrap then 1 else -1, match ow case Wrap => WrapSigned(value, incr, bits) case Sat => min case Fail => 0)
    else (0, 0)
  }

  /** The sign bit of the unsigned sum is propagated upwards, or everything above it is cleared. */
  function WrapSigned(value: int64, incr: int64, bits: nat): int
    requires Width(bits)
  {
    Powers(bits);
    var c := Unsigned64(Unsigned64(value) + Unsigned64(incr));
    if And(Pow2(bits - 1), c) != 0 then Signed64(Or(c, TWO64 - Pow2(bits))) else Signed64(And(c, Pow2(bits) - 1))
  }

  // ---------------------------------------------------------------------------
  // They compute the bound
  // ---------------------------------------------------------------------------

  lemma InRange(x: int)
    ensures 0 - TWO63 <= x < TWO63 ==> Signed64(x) == x
    ensures 0 <= x < TWO64 ==> Unsigned64(x) == x
  {
  }

  lemma CastThrough(x: int)
    requires 0 - TWO63 <= x < TWO63
    ensures Signed64(Unsigned64(x)) == x
  {
  }

  /** Reducing modulo 2^64 first does not matter. */
  lemma Mod64(x: int, bits: nat)
    requires Width(bits)
    ensures Unsigned64(x) % Pow2(bits) == x % Pow2(bits)
  {
    PowerProduct(bits, 64 - bits);
    Pow2Of64();
    ModOfMod(x, Pow2(bits), Pow2(64 - bits));
  }

  lemma ModOfMod(x: int, p: nat, q: nat)
    requires p > 0 && q > 0 && p * q > 0
    ensures x % (p * q) % p == x % p
  {
    var k, r := x / (p * q), x % (p * q);
    assert x == (p * q) * k + r;
    MulAssoc(p, q, k);
    var a, m := r / p, r % p;
    assert r == p * a + m;
    Distribute(p, q * k, a);
    DivUnique(x, p, q * k + a, m);
  }

  lemma MulAssoc(p: int, q: int, k: int)
    ensures (p * q) * k == p * (q * k)
  {
  }

  lemma Distribute(p: int, a: int, b: int)
    ensures p * (a + b) == p * a + p * b
  {
  }

  lemma {:induction false} PowerProduct(a: nat, b: nat)
    ensures Pow2(a) * Pow2(b) == Pow2(a + b)
  {
    if a > 0 {
      PowerProduct(a - 1, b);
      MulAssoc(2, Pow2(a - 1), Pow2(b));
    }
  }

  lemma UnsignedBounded(value: uint64, incr: int64, bits: nat, ow: Overflow)
    requires Width(bits) && (Fits(value, false, bits) || incr == 0)
    ensures
      var (over, limit) := CheckUnsigned(value, incr, bits, ow);
      && (over == 0 <==> Fits(value + incr, false, bits))
      && Bounded(value + incr, false, bits, ow) == if over == 0 then Some(value + incr)
        else if ow == Fail then None else Some(limit)
  {
    hide And;
    Powers(bits);
    hide Pow2;
    var max := Pow2(bits) - 1;
    AndLowMask(Unsigned64(value + incr), bits);
    Mod64(value + incr, bits);
    hide Unsigned64, Signed64;
    if value <= max {
      CastThrough(max - value);
      CastThrough(0 - value);
    }
  }

  lemma WrapSignedMeaning(value: int64, incr: int64, bits: nat)
    requires Width(bits)
    ensures WrapSigned(value, incr, bits) == Meaning((value + incr) % Pow2(bits), true, bits)
  {
    hide And, Or, Bit, Pow2, Unsigned64, Signed64;
    Powers(bits);
    SumMod64(value, incr);
    var c := Unsigned64(value + incr);
    Mod64(value + incr, bits);
    WrapBits(c, bits);
  }

  lemma WrapBits(c: uint64, bits: nat)
    requires Width(bits)
    ensures Pow2(bits) <= TWO63
    ensures And(Pow2(bits - 1), c) != 0 <==> c % Pow2(bits) >= Pow2(bits - 1)
    ensures c % Pow2(bits) >= Pow2(bits - 1) ==> Signed64(Or(c, TWO64 - Pow2(bits))) == c % Pow2(bits) - Pow2(bits)
    ensures c % Pow2(bits) < Pow2(bits - 1) ==> Signed64(And(c, Pow2(bits) - 1)) == c % Pow2(bits)
  {
    hide And, Or, Bit, Signed64;
    Powers(bits);
    Pow2Of64();
    hide Pow2;
    var m := c % Pow2(bits);
    AndOneBit(bits - 1, c);
    BitOfMod(c, bits, bits - 1);
    TopBit(m, bits - 1);
    OrHighMask(c, bits, 64);
    AndLowMask(c, bits);
    if m >= Pow2(bits - 1) {
      HighIsNegative(m + TWO64 - Pow2(bits));
    } else {
      InRange(m);
    }
  }

  lemma SumMod64(a: int, b: int)
    ensures Unsigned64(Unsigned64(a) + Unsigned64(b)) == Unsigned64(a + b)
  {
  }

  lemma HighIsNegative(x: int)
    requires TWO63 <= x < TWO64
    ensures Signed64(x) == x - TWO64
  {
  }

  /** The value from which on max - value leaves the range of a 64-bit integer. */
  predicate FarBelow(value: int64, bits: nat)
    requires Width(bits)
  {
    value <= Highest(true, bits) - TWO63
  }

  lemma MaxIncr(value: int64, bits: nat)
    requires Width(bits) && value <= Highest(true, bits)
    ensures Signed64(Highest(true, bits) - value)
      == Highest(true, bits) - value - if FarBelow(value, bits) then TWO64 else 0
  {
    Powers(bits);
    var d := Highest(true, bits) - value;
    if FarBelow(value, bits) {
      HighIsNegative(d);
    } else {
      InRange(d);
    }
  }

  lemma MinIncr(value: int64, bits: nat)
    requires Width(bits) && value >= Lowest(true, bits)
    ensures value <= Highest(true, bits) ==> Signed64(Lowest(true, bits) - value) == Lowest(true, bits) - value
  {
    Powers(bits);
    InRange(Lowest(true, bits) - value);
  }

  /** The checks compute the bound, except that saturation goes to the wrong end for values far below. */
  lemma SignedBounded(value: int64, incr: int64, bits: nat, ow: Overflow)
    requires Width(bits) && (Fits(value, true, bits) || incr == 0)
    ensures
      var (over, limit) := CheckSigned(value, incr, bits, ow);
      var stored := if over == 0 then Some(value + incr) else if ow == Fail then None else Some(limit);
      && (over == 0 <==> Fits(value + incr, true, bits))
      && (stored == Bounded(value + incr, true, bits, ow) <==> !(ow == Sat && FarBelow(value, bits)))
      && (ow == Sat && FarBelow(value, bits) ==> stored == Some(Highest(true, bits)))
  {
    hide WrapSigned;
    Powers(bits);
    WrapSignedMeaning(value, incr, bits);
    if value <= Highest(true, bits) {
      MaxIncr(value, bits);
    }
    if value >= Lowest(true, bits) {
      MinIncr(value, bits);
    }
  }
}
