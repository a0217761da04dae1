/** Decimal numbers as the C library prints and reads them. */
module Decimal {
  import opened Prelude

  predicate IsDigit(b: byte) {
    48 <= b <= 57
  }

  predicate AllDigits(s: seq<byte>) {
    forall i :: 0 <= i < |s| ==> IsDigit(s[i])
  }

  /** ll2string, and printf with %d, for numbers that are not negative. */
  function Digits(n: nat): (s: seq<byte>)
    ensures s != [] && AllDigits(s)
  {
    if n < 10 then [48 + n] else Digits(n / 10) + [48 + n % 10]
  }

  function Value(s: seq<byte>): nat
    requires AllDigits(s)
  {
    if s == [] then 0 else 10 * Value(s[..|s| - 1]) + (s[|s| - 1] - 48)
  }

  lemma {:induction false} ValueOfDigits(n: nat)
    ensures Value(Digits(n)) == n
  {
    if n >= 10 {
      ValueOfDigits(n / 10);
      var s := Digits(n);
      assert s[..|s| - 1] == Digits(n / 10);
    }
  }

  predicate IsSpace(b: byte) {
    b == 32 || 9 <= b <= 13
  }

  /** The length of the run of digits at the front. */
  function DigitRun(s: seq<byte>): (k: nat)
    ensures k <= |s| && AllDigits(s[..k]) && (k < |s| ==> !IsDigit(s[k]))
  {
    if s == [] || !IsDigit(s[0]) then 0
    else
      var k := DigitRun(s[1..]);
      assert s[..k + 1] == [s[0]] + s[1..][..k];
      k + 1
  }

  /** strtol in base ten (and atoi): white space, an optional sign, digits, and anything after them.
      Numbers outside the range of a long are not modelled. */
  function Strtol(s: seq<byte>): int
    decreases |s|
  {
    if s == [] then 0
    else if IsSpace(s[0]) then Strtol(s[1..])
    else if s[0] == 45 then 0 - Value(s[1..][..DigitRun(s[1..])])
    else if s[0] == 43 then Value(s[1..][..DigitRun(s[1..])])
    else Value(s[..DigitRun(s)])
  }

  lemma {:induction false} DigitRunOf(s: seq<byte>, tail: seq<byte>)
    requires AllDigits(s) && (tail == [] || !IsDigit(tail[0]))
    ensures DigitRun(s + tail) == |s|
  {
    if s == [] {
      assert s + tail == tail;
    } else {
      assert (s + tail)[1..] == s[1..] + tail;
      DigitRunOf(s[1..], tail);
    }
  }

  /** Reading stops at the first byte that is not a digit. */
  lemma StrtolOfDigits(s: seq<byte>, tail: seq<byte>)
    requires s != [] && AllDigits(s) && (tail == [] || !IsDigit(tail[0]))
    ensures Strtol(s + tail) == Value(s)
  {
    DigitRunOf(s, tail);
    assert (s + tail)[..|s|] == s;
    assert IsDigit((s + tail)[0]);
  }

  /** Printing and reading back. */
  lemma StrtolInvertsDigits(n: nat, tail: seq<byte>)
    requires tail == [] || !IsDigit(tail[0])
    ensures Strtol(Digits(n) + tail) == n
  {
    ValueOfDigits(n);
    StrtolOfDigits(Digits(n), tail);
  }

  lemma {:induction false} PositiveStartsNonZero(n: nat)
    requires n > 0
    ensures Digits(n)[0] != 48
  {
    if n >= 10 {
      PositiveStartsNonZero(n / 10);
    }
  }

  /** A number that does not start with a zero is not zero, however far it is read. */
  lemma {:induction false} NonZeroStart(s: seq<byte>)
    requires s != [] && AllDigits(s) && s[0] != 48
    ensures Value(s) > 0
    decreases |s|
  {
    if |s| > 1 {
      NonZeroStart(s[..|s| - 1]);
    }
  }

  function Pow10(k: nat): nat {
    if k == 0 then 1 else 10 * Pow10(k - 1)
  }

  lemma {:induction false} DigitsLength(n: nat, k: nat)
    requires k > 0 && n < Pow10(k)
    ensures |Digits(n)| <= k
  {
    if n >= 10 {
      assert k > 1;
      DigitsLength(n / 10, k - 1);
    }
  }

  const LONG_MAX: nat := 0x7fff_ffff_ffff_ffff

  /** A long has at most nineteen digits. */
  lemma LongLength(n: nat)
    requires n <= LONG_MAX
    ensures |Digits(n)| <= 19
  {
    assert Pow10(4) == 10_000;
    assert Pow10(8) == 1_0000_0000;
    assert Pow10(12) == 1_0000_0000_0000;
    assert Pow10(16) == 1_0000_0000_0000_0000;
    assert Pow10(19) == 1000_0000_0000_0000_0000;
    DigitsLength(n, 19);
  }
}
