/** The BITFIELD command: reading, setting and incrementing fields of 1 to 63 bits. */
module Bitfield {
  import opened Prelude
  import opened Bits
  import opened BitString
  import opened BitfieldStore
  import opened BitfieldOverflow

  datatype Opcode = Get | Set | IncrBy

  datatype Op = Op(code: Opcode, signed: bool, bits: nat, offset: nat, value: int64, overflow: Overflow)

  predicate ValidOp(op: Op, length: nat) {
    Width(op.bits) && (op.code != Get ==> op.offset + op.bits <= 8 * length)
  }

  /** The number in the operation's field. */
  function ValueOf(s: seq<byte>, op: Op): int
    requires Width(op.bits)
  {
    Meaning(Field(s, op.offset, op.bits), op.signed, op.bits)
  }

  /** The number the operation is to store, before it is made to fit: a set value is read in the type of the field. */
  function Wanted(op: Op, current: int): int {
    if op.code == IncrBy then current + op.value
    else if op.signed then op.value
    else Unsigned64(op.value)
  }

  /** What is stored; nothing if the operation fails. */
  function NewValue(op: Op, current: int): Option<int>
    requires Width(op.bits) && Fits(current, op.signed, op.bits)
  {
    Powers(op.bits);
    var from, incr := if op.code == IncrBy then current else Wanted(op, current),
      if op.code == IncrBy then op.value else 0;
    var (over, limit) := if op.signed then CheckSigned(from, incr, op.bits, op.overflow)
      else CheckUnsigned(from, incr, op.bits, op.overflow);
    if over == 0 then Some(from + incr) else if op.overflow == Fail then None else Some(limit)
  }

  /** A field that is set far below its range under saturation. */
  predicate SaturatesWrongly(op: Op)
    requires Width(op.bits)
  {
    op.code == Set && op.signed && op.overflow == Sat && FarBelow(op.value, op.bits)
  }

  /** The stored number is the wanted one, its residue, or the bound it passed; but for one kind of saturation. */
  lemma NewValueIsBounded(op: Op, current: int)
    requires Width(op.bits) && op.code != Get && Fits(current, op.signed, op.bits)
    ensures NewValue(op, current) == Bounded(Wanted(op, current), op.signed, op.bits, op.overflow) <==>
      !SaturatesWrongly(op)
  {
    Powers(op.bits);
    var from, incr := if op.code == IncrBy then current else Wanted(op, current),
      if op.code == IncrBy then op.value else 0;
    if op.signed {
      SignedBounded(from, incr, op.bits, op.overflow);
      if op.code == IncrBy {
        assert !FarBelow(from, op.bits);
      }
    } else {
      UnsignedBounded(from, incr, op.bits, op.overflow);
    }
  }

  /** Setting an 8-bit field to the smallest 64-bit number under saturation stores 127. */
  lemma SetFarBelowStoresHighest()
    ensures
      var op := Op(Set, true, 8, 0, -0x8000_0000_0000_0000, Sat);
      NewValue(op, 0) == Some(127) && Bounded(op.value, true, 8, Sat) == Some(-128)
  {
    assert Pow2(7) == 128;
    assert Pow2(8) == 256;
    SignedBounded(-0x8000_0000_0000_0000, 0, 8, Sat);
  }

  // ---------------------------------------------------------------------------
  // Effect of one operation
  // ---------------------------------------------------------------------------

  lemma MeaningFits(field: nat, signed: bool, bits: nat)
    requires Width(bits) && field < Pow2(bits)
    ensures Fits(Meaning(field, signed, bits), signed, bits)
  {
    Powers(bits);
  }

  lemma ValueFits(s: seq<byte>, op: Op)
    requires Width(op.bits)
    ensures Fits(ValueOf(s, op), op.signed, op.bits)
  {
    FieldBound(s, op.offset, op.bits);
    MeaningFits(Field(s, op.offset, op.bits), op.signed, op.bits);
  }

  /** The string and the reply after an operation. */
  function Apply(s: seq<byte>, op: Op): (r: (seq<byte>, Option<int>))
    requires ValidOp(op, |s|)
    ensures |r.0| == |s|
  {
    ValueFits(s, op);
    var current := ValueOf(s, op);
    if op.code == Get then (s, Some(current))
    else
      var n := NewValue(op, current);
      if n.None? then (s, None)
      else (Stored(s, op.offset, op.bits, Unsigned64(n.value), op.bits), if op.code == Set then Some(current) else n)
  }

  /** A number that fits is represented by its residue. */
  lemma MeaningOfResidue(v: int, signed: bool, bits: nat)
    requires Width(bits) && Fits(v, signed, bits)
    ensures Meaning(Unsigned64(v) % Pow2(bits), signed, bits) == v
  {
    Powers(bits);
    Mod64(v, bits);
    if v >= 0 {
      DivUnique(v, Pow2(bits), 0, v);
    } else {
      DivUnique(v, Pow2(bits), -1, v + Pow2(bits));
    }
  }

  lemma NewValueFits(op: Op, current: int)
    requires Width(op.bits) && op.code != Get && Fits(current, op.signed, op.bits)
    ensures NewValue(op, current).Some? ==> Fits(NewValue(op, current).value, op.signed, op.bits)
  {
    Powers(op.bits);
    NewValueIsBounded(op, current);
    var v := Wanted(op, current);
    MeaningFits(v % Pow2(op.bits), op.signed, op.bits);
    if SaturatesWrongly(op) {
      SignedBounded(op.value, 0, op.bits, Sat);
    }
  }

  /** After a write, the field holds the new number. */
  lemma WriteStores(s: seq<byte>, op: Op)
    requires ValidOp(op, |s|) && op.code != Get && Apply(s, op).1.Some?
    ensures Fits(ValueOf(s, op), op.signed, op.bits)
    ensures NewValue(op, ValueOf(s, op)) == Some(ValueOf(Apply(s, op).0, op))
  {
    ValueFits(s, op);
    NewValueFits(op, ValueOf(s, op));
    var v := NewValue(op, ValueOf(s, op)).value;
    FieldOfStored(s, op.offset, op.bits, Unsigned64(v));
    MeaningOfResidue(v, op.signed, op.bits);
  }

  /** The reply to an increment is what a later GET returns: the sum, its residue, or the bound. */
  lemma GetAfterIncrBy(s: seq<byte>, op: Op)
    requires ValidOp(op, |s|) && op.code == IncrBy
    ensures
      var (t, reply) := Apply(s, op);
      && reply == Bounded(ValueOf(s, op) + op.value, op.signed, op.bits, op.overflow)
      && (reply.Some? ==> Apply(t, op.(code := Get)).1 == reply)
  {
    ValueFits(s, op);
    NewValueIsBounded(op, ValueOf(s, op));
    if Apply(s, op).1.Some? {
      WriteStores(s, op);
    }
  }

  /** The number given to SET as the field takes it: a negative one in an unsigned field is read modulo 2^64. */
  function Given(op: Op): int {
    if op.signed || op.value >= 0 then op.value else op.value + TWO64
  }

  /** SET replies the old number, and a later GET returns the number given, if the field can hold it. Otherwise it is
      reduced modulo 2^bits, or replaced by the bound it passed, or not stored at all; but a number so far below a
      signed field that the distance to its greatest number is no 64-bit integer is replaced by that number. */
  lemma GetAfterSet(s: seq<byte>, op: Op)
    requires ValidOp(op, |s|) && op.code == Set
    ensures
      var (t, reply) := Apply(s, op);
      var v, now := Given(op), Apply(t, op.(code := Get)).1;
      var least, greatest :=
        if op.signed then 0 - Pow2(op.bits - 1) else 0, if op.signed then Pow2(op.bits - 1) - 1 else Pow2(op.bits) - 1;
      if least <= v <= greatest then reply == Some(ValueOf(s, op)) && now == Some(v)
      else match op.overflow
        case Fail => reply == None && t == s
        case Wrap =>
          && reply == Some(ValueOf(s, op)) && now.Some?
          && least <= now.value <= greatest && now.value % Pow2(op.bits) == v % Pow2(op.bits)
        case Sat =>
          && reply == Some(ValueOf(s, op))
          && now == Some(if v > greatest || (op.signed && greatest - v >= TWO63) then greatest else least)
  {
    hide NewValue, ValueOf, Apply, Pow2, Meaning;
    Powers(op.bits);
    SetAndGet(s, op);
    NewValueOfSet(op, ValueOf(s, op));
    WrapIsResidue(Given(op), op.signed, op.bits);
  }

  lemma SetAndGet(s: seq<byte>, op: Op)
    requires ValidOp(op, |s|) && op.code == Set
    ensures Fits(ValueOf(s, op), op.signed, op.bits)
    ensures
      var (t, reply) := Apply(s, op);
      match NewValue(op, ValueOf(s, op))
      case None => t == s && reply == None
      case Some(v) => reply == Some(ValueOf(s, op)) && Apply(t, op.(code := Get)).1 == Some(v)
  {
    ValueFits(s, op);
    if Apply(s, op).1.Some? {
      WriteStores(s, op);
    }
    hide NewValue, Stored;
  }

  lemma NewValueOfSet(op: Op, current: int)
    requires Width(op.bits) && op.code == Set && Fits(current, op.signed, op.bits)
    ensures NewValue(op, current) ==
            if op.signed && op.overflow == Sat && Highest(true, op.bits) - op.value >= TWO63
            then Some(Highest(true, op.bits))
            else Bounded(Given(op), op.signed, op.bits, op.overflow)
  {
    Powers(op.bits);
    NewValueIsBounded(op, current);
    assert Wanted(op, current) == Given(op);
    if SaturatesWrongly(op) {
      SignedBounded(op.value, 0, op.bits, Sat);
    }
  }

  lemma WrapIsResidue(v: int, signed: bool, bits: nat)
    requires Width(bits)
    ensures
      var m := Meaning(v % Pow2(bits), signed, bits);
      Fits(m, signed, bits) && m % Pow2(bits) == v % Pow2(bits)
  {
    Powers(bits);
    var p, r := Pow2(bits), v % Pow2(bits);
    MeaningFits(r, signed, bits);
    hide Pow2;
    DivUnique(r, p, 0, r);
    DivUnique(r - p, p, -1, r);
  }

  /** Nothing changes if an operation fails or only reads; otherwise no bit outside its field changes. */
  lemma OthersUntouched(s: seq<byte>, op: Op, q: nat)
    requires ValidOp(op, |s|)
    ensures op.code == Get || Apply(s, op).1 == None ==> Apply(s, op).0 == s
    ensures q < op.offset || q >= op.offset + op.bits ==> PaddedBit(Apply(s, op).0, q) == PaddedBit(s, q)
  {
    ValueFits(s, op);
    var n := NewValue(op, ValueOf(s, op));
    if (q < op.offset || q >= op.offset + op.bits) && op.code != Get && n.Some? {
      StoredOutside(s, op.offset, op.bits, Unsigned64(n.value), q);
    }
  }

  /** Fields apart from the written one keep their numbers. */
  lemma FieldsApart(s: seq<byte>, op: Op, other: Op)
    requires ValidOp(op, |s|) && Width(other.bits)
    requires op.offset + op.bits <= other.offset || other.offset + other.bits <= op.offset
    ensures ValueOf(Apply(s, op).0, other) == ValueOf(s, other)
  {
    var t := Apply(s, op).0;
    forall i | 0 <= i < other.bits
      ensures SameBit(t, other.offset, s, other.offset, i)
    {
      OthersUntouched(s, op, other.offset + i);
    }
    FieldFrame(t, other.offset, s, other.offset, other.bits);
  }

  // ---------------------------------------------------------------------------
  // Execution
  // ---------------------------------------------------------------------------

  method GetSignedBitfield(s: seq<byte>, offset: nat, bits: nat) returns (value: int)
    requires Width(bits) && offset + bits <= 8 * |s|
    ensures value == Meaning(Field(s, offset, bits), true, bits)
  {
    hide And, Or, Signed64, Field, Pow2;
    value := GetUnsignedBitfield(s, offset, bits);
    FieldBound(s, offset, bits);
    Powers(bits);
    SignExtension(value, bits);
    if And(Pow2(bits - 1), value) != 0 {
      value := Signed64(Or(value, TWO64 - Pow2(bits)));
    }
  }

  lemma SignExtension(u: nat, bits: nat)
    requires Width(bits) && u < Pow2(bits) && Pow2(bits) <= TWO63
    ensures And(Pow2(bits - 1), u) != 0 <==> u >= Pow2(bits - 1)
    ensures u >= Pow2(bits - 1) ==> Signed64(Or(u, TWO64 - Pow2(bits))) == u - Pow2(bits)
  {
    hide And, Or, Signed64, Pow2;
    WrapBits(u, bits);
    DivUnique(u, Pow2(bits), 0, u);
  }

  /** Nine bytes from the byte of the offset on, zero padded, hold every field of up to 64 bits. */
  method GetThroughWindow(s: seq<byte>, signed: bool, offset: nat, bits: nat) returns (value: int)
    requires Width(bits)
    ensures value == Meaning(Field(s, offset, bits), signed, bits)
  {
    hide Field, Meaning;
    var buf := new byte[9](_ => 0);
    var at := offset / 8;
    var i := 0;
    while i < 9
      invariant 0 <= i <= 9
      invariant forall k :: 0 <= k < i ==> at + k < |s| && buf[k] == s[at + k]
      invariant forall k :: i <= k < 9 ==> buf[k] == 0
    {
      if i + at >= |s| { break; }
      buf[i] := s[i + at];
      i := i + 1;
    }
    WindowField(s, buf[..], offset, bits);
    if signed {
      value := GetSignedBitfield(buf[..], offset - 8 * at, bits);
    } else {
      value := GetUnsignedBitfield(buf[..], offset - 8 * at, bits);
      UnsignedMeaning(value, bits);
    }
  }

  lemma UnsignedMeaning(u: nat, bits: nat)
    requires Width(bits)
    ensures Meaning(u, false, bits) == u
  {
  }

  lemma WindowField(s: seq<byte>, buf: seq<byte>, offset: nat, bits: nat)
    requires bits <= 64 && |buf| == 9
    requires forall k :: 0 <= k < 9 ==> buf[k] == if offset / 8 + k < |s| then s[offset / 8 + k] else 0
    ensures Field(buf, offset % 8, bits) == Field(s, offset, bits)
  {
    forall i | 0 <= i < bits
      ensures SameBit(buf, offset % 8, s, offset, i)
    {
      var p, q := offset % 8 + i, offset + i;
      assert q == 8 * (offset / 8) + p;
      assert q / 8 == offset / 8 + p / 8 && q % 8 == p % 8;
      ZeroHasNoBits(7 - p % 8);
    }
    FieldFrame(buf, offset % 8, s, offset, bits);
  }

  /** One operation of the execution loop of bitfieldCommand, on the string in place. */
  method Execute(p: array<byte>, op: Op) returns (reply: Option<int>)
    requires ValidOp(op, p.Length)
    modifies p
    ensures (p[..], reply) == Apply(old(p[..]), op)
  {
    hide Field, Meaning, NewValue, Stored, Unsigned64;
    ValueFits(p[..], op);
    var current;
    if op.code == Get {
      current := GetThroughWindow(p[..], op.signed, op.offset, op.bits);
      return Some(current);
    }
    if op.signed {
      current := GetSignedBitfield(p[..], op.offset, op.bits);
    } else {
      current := GetUnsignedBitfield(p[..], op.offset, op.bits);
      UnsignedMeaning(current, op.bits);
    }
    var n := NewValue(op, current);
    if n.None? {
      return None;
    }
    SetUnsignedBitfield(p, op.offset, op.bits, Unsigned64(n.value));
    return if op.code == Set then Some(current) else n;
  }

  /** All operations, in order. */
  function ApplyAll(s: seq<byte>, ops: seq<Op>): (r: (seq<byte>, seq<Option<int>>))
    requires forall op <- ops :: ValidOp(op, |s|)
    ensures |r.0| == |s| && |r.1| == |ops|
  {
    if ops == [] then (s, [])
    else
      var n := |ops| - 1;
      var (t, replies) := ApplyAll(s, ops[..n]);
      var (u, reply) := Apply(t, ops[n]);
      (u, replies + [reply])
  }

  method BitfieldCommand(p: array<byte>, ops: seq<Op>) returns (replies: seq<Option<int>>)
    requires forall op <- ops :: ValidOp(op, p.Length)
    modifies p
    ensures (p[..], replies) == ApplyAll(old(p[..]), ops)
  {
    hide Apply;
    replies := [];
    for j := 0 to |ops|
      invariant (p[..], replies) == ApplyAll(old(p[..]), ops[..j])
    {
      assert ops[..j + 1][..j] == ops[..j];
      assert ops[j] in ops;
      var reply := Execute(p, ops[j]);
      replies := replies + [reply];
    }
    assert ops[..|ops|] == ops;
  }
}
