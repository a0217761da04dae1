/** The slots of a node as ranges of a line of nodes.conf. */
module SlotRanges {
  import opened Prelude
  import opened SlotBitmap
  import opened Decimal

  datatype Range = Range(start: nat, stop: nat)

  predicate Covers(r: Range, j: nat) {
    r.start <= j <= r.stop
  }

  ghost predicate Covered(rs: seq<Range>, j: nat) {
    exists r <- rs :: Covers(r, j)
  }

  /** All slots of the range are set, and neither neighbour is. */
  ghost predicate Maximal(b: Bitmap, r: Range) {
    && r.start <= r.stop < CLUSTER_SLOTS
    && (forall j :: r.start <= j <= r.stop ==> TestBit(b, j))
    && (r.start > 0 ==> !TestBit(b, r.start - 1))
    && (r.stop + 1 < CLUSTER_SLOTS ==> !TestBit(b, r.stop + 1))
  }

  /** Sorted, and with a gap between any two. */
  ghost predicate Sorted(rs: seq<Range>) {
    forall i, k :: 0 <= i < k < |rs| ==> rs[i].stop + 1 < rs[k].start
  }

  ghost predicate RangesOf(b: Bitmap, rs: seq<Range>) {
    && Sorted(rs) && (forall r <- rs :: Maximal(b, r))
    && forall j :: 0 <= j < CLUSTER_SLOTS ==> (TestBit(b, j) <==> Covered(rs, j))
  }

  // ---------------------------------------------------------------------------
  // Text
  // ---------------------------------------------------------------------------

  const DASH: byte := 45

  /** One word of the line: a slot, or the first and the last slot of a range. */
  function Word(r: Range): seq<byte> {
    if r.start == r.stop then Digits(r.start) else Digits(r.start) + [DASH] + Digits(r.stop)
  }

  function Words(rs: seq<Range>): seq<seq<byte>> {
    if rs == [] then [] else Words(rs[..|rs| - 1]) + [Word(rs[|rs| - 1])]
  }

  /** strchr */
  function Find(s: seq<byte>, c: byte): (i: nat)
    ensures i <= |s| && (i < |s| ==> s[i] == c) && forall j :: 0 <= j < i ==> s[j] != c
  {
    if s == [] || s[0] == c then 0 else 1 + Find(s[1..], c)
  }

  /** What the loader reads from a word; nothing if a slot is out of range. */
  function Parse(word: seq<byte>): Option<Range> {
    var p := Find(word, DASH);
    var start := if p < |word| then Strtol(word[..p]) else Strtol(word);
    var stop := if p < |word| then Strtol(word[p + 1..]) else Strtol(word);
    if start < 0 || start >= CLUSTER_SLOTS || stop < 0 || stop >= CLUSTER_SLOTS then None else Some(Range(start, stop))
  }

  /** Loading a printed word gives back the range. */
  lemma ParseInvertsWord(r: Range)
    requires r.start <= r.stop < CLUSTER_SLOTS
    ensures Parse(Word(r)) == Some(r)
  {
    var a, z := Digits(r.start), Digits(r.stop);
    StrtolInvertsDigits(r.start, []);
    StrtolInvertsDigits(r.stop, []);
    assert a + [] == a && z + [] == z;
    FindAfterDigits(a, []);
    FindAfterDigits(a, [DASH] + z);
    var word := Word(r);
    if r.start != r.stop {
      assert word == a + ([DASH] + z);
      assert word[..|a|] == a && word[|a| + 1..] == z;
    }
  }

  /** Any two numbers with a dash between them are read, in whatever order, if both are slots; otherwise nothing is. */
  lemma ParseAnyRange(a: nat, z: nat)
    ensures Parse(Digits(a) + [DASH] + Digits(z)) ==
            if a < CLUSTER_SLOTS && z < CLUSTER_SLOTS then Some(Range(a, z)) else None
    ensures Parse(Digits(a)) == if a < CLUSTER_SLOTS then Some(Range(a, a)) else None
  {
    var s, t := Digits(a), Digits(z);
    StrtolInvertsDigits(a, []);
    StrtolInvertsDigits(z, []);
    assert s + [] == s && t + [] == t;
    FindAfterDigits(s, []);
    FindAfterDigits(s, [DASH] + t);
    var word := s + [DASH] + t;
    assert word == s + ([DASH] + t) && word[..|s|] == s && word[|s| + 1..] == t;
  }

  lemma {:induction false} FindAfterDigits(s: seq<byte>, tail: seq<byte>)
    requires AllDigits(s) && (tail != [] ==> tail[0] == DASH)
    ensures Find(s + tail, DASH) == |s|
  {
    if s == [] {
      assert s + tail == tail;
    } else {
      assert (s + tail)[1..] == s[1..] + tail;
      FindAfterDigits(s[1..], tail);
    }
  }

  /** The ranges of a list of words, if all of them can be read. */
  function ParseAll(words: seq<seq<byte>>): Option<seq<Range>> {
    if words == [] then Some([])
    else
      var n := |words| - 1;
      var (rs, r) := (ParseAll(words[..n]), Parse(words[n]));
      if rs.Some? && r.Some? then Some(rs.value + [r.value]) else None
  }

  lemma {:induction false} ParseAllInvertsWords(rs: seq<Range>)
    requires forall i :: 0 <= i < |rs| ==> rs[i].start <= rs[i].stop < CLUSTER_SLOTS
    ensures ParseAll(Words(rs)) == Some(rs)
  {
    if rs != [] {
      var n := |rs| - 1;
      ParseAllInvertsWords(rs[..n]);
      ParseInvertsWord(rs[n]);
      var ws := Words(rs);
      assert ws[..|ws| - 1] == Words(rs[..n]);
      assert rs[..n] + [rs[n]] == rs;
    }
  }

  // ---------------------------------------------------------------------------
  // The loop of clusterGenNodeDescription
  // ---------------------------------------------------------------------------

  /** After the slots below j: what was printed, and the range that is open. */
  ghost predicate Printed(b: Bitmap, rs: seq<Range>, start: int, j: nat)
    requires j <= CLUSTER_SLOTS
  {
    && -1 <= start < j
    && Sorted(rs) && (forall r <- rs :: Maximal(b, r) && r.stop < j && (start != -1 ==> r.stop + 1 < start))
    && (start != -1 ==> (forall i :: start <= i < j ==> TestBit(b, i)) && (start > 0 ==> !TestBit(b, start - 1)))
    && (start == -1 && 0 < j < CLUSTER_SLOTS ==> !TestBit(b, j - 1))
    && forall i :: 0 <= i < j ==> (TestBit(b, i) <==> Covered(rs, i) || (start != -1 && start <= i))
  }

  /** A set slot opens a range or extends it. */
  lemma ExtendRange(b: Bitmap, rs: seq<Range>, start: int, j: nat)
    requires j < CLUSTER_SLOTS && TestBit(b, j) && Printed(b, rs, start, j)
    ensures Printed(b, rs, if start == -1 then j else start, j + 1)
  {
    hide TestBit;
  }

  lemma SkipSlot(b: Bitmap, rs: seq<Range>, j: nat)
    requires j < CLUSTER_SLOTS && !TestBit(b, j) && Printed(b, rs, -1, j)
    ensures Printed(b, rs, -1, j + 1)
  {
    hide TestBit;
  }

  /** Closing the open range at the slots below j. */
  lemma CloseRange(b: Bitmap, rs: seq<Range>, start: nat, j: nat)
    requires j <= CLUSTER_SLOTS && Printed(b, rs, start, j) && (j < CLUSTER_SLOTS ==> !TestBit(b, j))
    ensures Printed(b, rs + [Range(start, j - 1)], -1, if j < CLUSTER_SLOTS then j + 1 else j)
  {
    hide TestBit;
    var last := Range(start, j - 1);
    var all := rs + [last];
    assert Maximal(b, last);
    assert last in all;
    forall i, k | 0 <= i < k < |all|
      ensures all[i].stop + 1 < all[k].start
    {
      if k == |rs| {
        assert rs[i] in rs;
      }
    }
    forall i | 0 <= i < j
      ensures TestBit(b, i) <==> Covered(all, i)
    {
      CoveredAppend(rs, last, i);
    }
    if j < CLUSTER_SLOTS {
      CoveredAppend(rs, last, j);
    }
  }

  lemma CoveredAppend(rs: seq<Range>, r: Range, j: nat)
    ensures Covered(rs + [r], j) <==> Covered(rs, j) || Covers(r, j)
  {
    if Covered(rs, j) {
      var q :| q in rs && Covers(q, j);
      assert q in rs + [r];
    }
    if Covers(r, j) {
      assert r in rs + [r];
    }
  }

  lemma WordsNext(rs: seq<Range>, r: Range)
    ensures Words(rs + [r]) == Words(rs) + [Word(r)]
  {
    assert (rs + [r])[..|rs|] == rs;
  }

  lemma PrintedNone(b: Bitmap)
    ensures Printed(b, [], -1, 0)
  {
  }

  lemma PrintedAll(b: Bitmap, rs: seq<Range>)
    requires Printed(b, rs, -1, CLUSTER_SLOTS)
    ensures RangesOf(b, rs) && forall i :: 0 <= i < |rs| ==> rs[i].start <= rs[i].stop < CLUSTER_SLOTS
  {
    assert forall i :: 0 <= i < |rs| ==> rs[i] in rs;
  }

  lemma PrintedBounds(b: Bitmap, rs: seq<Range>, start: int, j: nat)
    requires j <= CLUSTER_SLOTS && Printed(b, rs, start, j)
    ensures -1 <= start < j
  {
  }

  /** The words, read back, are the ranges of the bitmap. */
  method PrintRanges(b: Bitmap) returns (words: seq<seq<byte>>)
    ensures ParseAll(words).Some? && RangesOf(b, ParseAll(words).value) && words == Words(ParseAll(words).value)
  {
    hide TestBit, Digits, Printed, RangesOf, Words, ParseAll;
    words := [];
    ghost var rs: seq<Range> := [];
    var j, start := 0, -1;
    PrintedNone(b);
    assert Words([]) == [] by { NoWords(); }
    while j < CLUSTER_SLOTS
      invariant j <= CLUSTER_SLOTS + 1 && (j >= CLUSTER_SLOTS ==> start == -1)
      invariant Printed(b, rs, start, Min(j, CLUSTER_SLOTS)) && words == Words(rs)
    {
      var bit := TestBit(b, j);
      PrintedBounds(b, rs, start, j);
      if bit {
        ExtendRange(b, rs, start, j);
        if start == -1 { start := j; }
      } else if start == -1 {
        SkipSlot(b, rs, j);
      }
      if start != -1 && (!bit || j == CLUSTER_SLOTS - 1) {
        if bit && j == CLUSTER_SLOTS - 1 { j := j + 1; }
        CloseRange(b, rs, start, j);
        WordsNext(rs, Range(start, j - 1));
        words := words + [if start == j - 1 then Digits(start) else Digits(start) + [DASH] + Digits(j - 1)];
        rs := rs + [Range(start, j - 1)];
        start := -1;
      }
      j := j + 1;
    }
    PrintedAll(b, rs);
    ParseAllInvertsWords(rs);
  }

  lemma NoWords()
    ensures Words([]) == []
  {
  }
}
