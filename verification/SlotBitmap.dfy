/** The bitmap of the slots a node serves. */
module SlotBitmap {
  import opened Prelude
  import opened Bits

  const CLUSTER_SLOTS: nat := 16384

  type Bitmap = b: seq<byte> | |b| == 2048 witness seq(2048, _ => 0)

  predicate TestBit(b: Bitmap, pos: nat)
    requires pos < CLUSTER_SLOTS
  {
    Bit(b[pos / 8], pos % 8)
  }

  /** bitmapSetBit and bitmapClearBit */
  function SetBit(b: Bitmap, pos: nat, v: bool): (r: Bitmap)
    requires pos < CLUSTER_SLOTS
  {
    ByteFits(b[pos / 8], pos % 8, v);
    b[pos / 8 := WithBit(b[pos / 8], pos % 8, v)]
  }

  lemma TestOfSet(b: Bitmap, pos: nat, v: bool, j: nat)
    requires pos < CLUSTER_SLOTS && j < CLUSTER_SLOTS
    ensures TestBit(SetBit(b, pos, v), j) == if j == pos then v else TestBit(b, j)
  {
    if j / 8 == pos / 8 {
      BitOfWithBit(b[pos / 8], pos % 8, v, j % 8);
      assert j % 8 == pos % 8 ==> j == pos;
    }
  }

  /** The number of set bits among the first n. */
  function Count(b: Bitmap, n: nat): nat
    requires n <= CLUSTER_SLOTS
  {
    if n == 0 then 0 else Count(b, n - 1) + B(TestBit(b, n - 1))
  }

  lemma {:induction false} CountOfSet(b: Bitmap, pos: nat, v: bool, n: nat)
    requires pos < CLUSTER_SLOTS && n <= CLUSTER_SLOTS
    ensures Count(SetBit(b, pos, v), n) == Count(b, n) + if pos < n then B(v) - B(TestBit(b, pos)) else 0
  {
    if n > 0 {
      CountOfSet(b, pos, v, n - 1);
      TestOfSet(b, pos, v, n - 1);
    }
  }

  lemma {:induction false} CountZero(b: Bitmap, n: nat)
    requires n <= CLUSTER_SLOTS
    ensures Count(b, n) == 0 <==> forall j :: 0 <= j < n ==> !TestBit(b, j)
  {
    if n > 0 {
      CountZero(b, n - 1);
    }
  }

  const EMPTY: Bitmap := seq(2048, _ => 0)

  lemma EmptyBits(j: nat)
    requires j < CLUSTER_SLOTS
    ensures !TestBit(EMPTY, j)
  {
    ZeroHasNoBits(j % 8);
  }
}
