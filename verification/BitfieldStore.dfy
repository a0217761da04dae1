/** Integers of any width at any position of a string of bits. */
module BitfieldStore {
  import opened Prelude
  import opened Bits
  import opened BitString

  /** The bits of the field as a number, the first most significant; the string is zero padded. */
  function Field(s: seq<byte>, offset: nat, bits: nat): nat {
    if bits == 0 then 0 else 2 * Field(s, offset, bits - 1) + B(PaddedBit(s, offset + bits - 1))
  }

  function SetBitAt(s: seq<byte>, p: nat, v: bool): (r: seq<byte>)
    requires p < 8 * |s|
    ensures |r| == |s|
  {
    ByteFits(s[p / 8], 7 - p % 8, v);
    s[p / 8 := WithBit(s[p / 8], 7 - p % 8, v)]
  }

  /** The string after the first j bits of the value were stored. */
  function Stored(s: seq<byte>, offset: nat, bits: nat, value: nat, j: nat): (r: seq<byte>)
    requires offset + bits <= 8 * |s| && j <= bits
    ensures |r| == |s|
  {
    if j == 0 then s else SetBitAt(Stored(s, offset, bits, value, j - 1), offset + j - 1, Bit(value, bits - j))
  }

  lemma BitOfSetBitAt(s: seq<byte>, p: nat, v: bool, q: nat)
    requires p < 8 * |s| && q < 8 * |s|
    ensures BitAt(SetBitAt(s, p, v), q) == if q == p then v else BitAt(s, q)
  {
    if q / 8 == p / 8 {
      BitOfWithBit(s[p / 8], 7 - p % 8, v, 7 - q % 8);
      assert q % 8 == p % 8 ==> q == p;
    }
  }

  lemma {:induction false} BitOfStored(s: seq<byte>, offset: nat, bits: nat, value: nat, j: nat, q: nat)
    requires offset + bits <= 8 * |s| && j <= bits && q < 8 * |s|
    ensures BitAt(Stored(s, offset, bits, value, j), q) ==
            if offset <= q < offset + j then Bit(value, bits - 1 - (q - offset)) else BitAt(s, q)
  {
    if j > 0 {
      BitOfStored(s, offset, bits, value, j - 1, q);
      BitOfSetBitAt(Stored(s, offset, bits, value, j - 1), offset + j - 1, Bit(value, bits - j), q);
    }
  }

  lemma {:induction false} FieldBound(s: seq<byte>, offset: nat, bits: nat)
    ensures Field(s, offset, bits) < Pow2(bits)
  {
    if bits > 0 {
      FieldBound(s, offset, bits - 1);
    }
  }

  lemma {:induction false} BitOfField(s: seq<byte>, offset: nat, bits: nat, i: nat)
    requires i < bits
    ensures Bit(Field(s, offset, bits), i) == PaddedBit(s, offset + bits - 1 - i)
  {
    if i > 0 {
      BitOfField(s, offset, bits - 1, i - 1);
    }
  }

  /** Reading back what was stored gives its low bits. */
  lemma FieldOfStored(s: seq<byte>, offset: nat, bits: nat, value: nat)
    requires offset + bits <= 8 * |s|
    ensures Field(Stored(s, offset, bits, value, bits), offset, bits) == value % Pow2(bits)
  {
    var t := Stored(s, offset, bits, value, bits);
    FieldBound(t, offset, bits);
    forall i | 0 <= i < bits
      ensures Bit(Field(t, offset, bits), i) == Bit(value % Pow2(bits), i)
    {
      BitOfField(t, offset, bits, i);
      BitOfStored(s, offset, bits, value, bits, offset + bits - 1 - i);
      BitOfMod(value, bits, i);
    }
    SameBits(Field(t, offset, bits), value % Pow2(bits), bits);
  }

  ghost predicate SameBit(s: seq<byte>, a: nat, t: seq<byte>, b: nat, i: nat) {
    PaddedBit(s, a + i) == PaddedBit(t, b + i)
  }

  /** A field depends on its own bits only. */
  lemma {:induction false} FieldFrame(s: seq<byte>, a: nat, t: seq<byte>, b: nat, bits: nat)
    requires forall i :: 0 <= i < bits ==> SameBit(s, a, t, b, i)
    ensures Field(s, a, bits) == Field(t, b, bits)
  {
    if bits > 0 {
      assert SameBit(s, a, t, b, bits - 1);
      FieldFrame(s, a, t, b, bits - 1);
    }
  }

  /** No bit outside the field changes. */
  lemma StoredOutside(s: seq<byte>, offset: nat, bits: nat, value: nat, q: nat)
    requires offset + bits <= 8 * |s| && (q < offset || q >= offset + bits)
    ensures PaddedBit(Stored(s, offset, bits, value, bits), q) == PaddedBit(s, q)
  {
    if q < 8 * |s| {
      BitOfStored(s, offset, bits, value, bits, q);
    }
  }

  // ---------------------------------------------------------------------------
  // setUnsignedBitfield and getUnsignedBitfield
  // ---------------------------------------------------------------------------

  lemma {:induction false} ClearThenSet(n: nat, i: nat, v: bool)
    ensures WithBit(WithBit(n, i, false), i, v) == WithBit(n, i, v)
  {
    if i > 0 {
      ClearThenSet(n / 2, i - 1, v);
      var w := WithBit(n / 2, i - 1, false);
      assert (2 * w + n % 2) / 2 == w && (2 * w + n % 2) % 2 == n % 2;
    }
  }

  method SetUnsignedBitfield(p: array<byte>, offset: nat, bits: nat, value: nat)
    requires offset + bits <= 8 * p.Length
    modifies p
    ensures p[..] == Stored(old(p[..]), offset, bits, value, bits)
  {
    hide Bit, And, WithBit;
    var at := offset;
    for j := 0 to bits
      invariant at == offset + j && p[..] == Stored(old(p[..]), offset, bits, value, j)
    {
      AndOneBit(bits - 1 - j, value);
      var bitval := And(Pow2(bits - 1 - j), value) != 0;
      var index, bit := at / 8, 7 - at % 8;
      var byteval: byte := p[index];
      ByteFits(byteval, bit, false);
      ClearThenSet(byteval, bit, bitval);
      byteval := WithBit(byteval, bit, false);
      ByteFits(byteval, bit, bitval);
      byteval := WithBit(byteval, bit, bitval);
      p[index] := byteval;
      at := at + 1;
    }
  }

  method GetUnsignedBitfield(s: seq<byte>, offset: nat, bits: nat) returns (value: nat)
    requires offset + bits <= 8 * |s|
    ensures value == Field(s, offset, bits)
  {
    value := 0;
    var at := offset;
    for j := 0 to bits
      invariant at == offset + j && value == Field(s, offset, j)
    {
      var bitval := B(Bit(s[at / 8], 7 - at % 8));
      value := 2 * value + bitval;
      at := at + 1;
    }
  }
}
