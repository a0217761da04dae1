/** Saving the slots of all nodes and loading them again. */
module ClusterConfig {
  import opened Prelude
  import opened Bits
  import opened SlotBitmap
  import opened SlotRanges
  import opened ClusterSlots

  /** Adding the slots of a range one by one; slots that are taken are refused. */
  method AddRange(c: Cluster, n: ClusterNode, r: Range) returns (refused: nat)
    requires c.Valid() && n in c.nodes && r.start < CLUSTER_SLOTS && r.stop < CLUSTER_SLOTS
    modifies c`slots, n`bitmap, n`numSlots
    ensures c.Valid()
    ensures forall j :: 0 <= j < CLUSTER_SLOTS ==>
      c.slots[j] == if Covers(r, j) && old(c.slots)[j] == null then n else old(c.slots)[j]
    ensures (forall j: nat :: Covers(r, j) ==> old(c.slots)[j] == null) ==> refused == 0
  {
    hide Cluster.NodeOk;
    refused := 0;
    var start := r.start;
    while start <= r.stop
      invariant c.Valid() && r.start <= start <= Max(r.start, r.stop + 1)
      invariant forall j :: 0 <= j < CLUSTER_SLOTS ==>
        c.slots[j] == if Covers(r, j) && j < start && old(c.slots)[j] == null then n else old(c.slots)[j]
      invariant (forall j: nat :: Covers(r, j) ==> old(c.slots)[j] == null) ==> refused == 0
    {
      assert Covers(r, start);
      var ok := c.AddSlot(n, start);
      if !ok { refused := refused + 1; }
      start := start + 1;
    }
  }

  /** The slots of one line of nodes.conf. */
  method LoadWords(c: Cluster, n: ClusterNode, words: seq<seq<byte>>) returns (ok: bool, refused: nat)
    requires c.Valid() && n in c.nodes
    modifies c`slots, n`bitmap, n`numSlots
    ensures c.Valid() && ok == ParseAll(words).Some?
    ensures ok ==> forall j :: 0 <= j < CLUSTER_SLOTS ==>
      c.slots[j] == if Covered(ParseAll(words).value, j) && old(c.slots)[j] == null then n else old(c.slots)[j]
    ensures ok && Free(old(c.slots), ParseAll(words).value) ==> refused == 0
  {
    hide Cluster.NodeOk, Covers, Parse;
    refused := 0;
    ghost var free := ParseAll(words).Some? && Free(c.slots, ParseAll(words).value);
    for i := 0 to |words|
      invariant c.Valid() && ParseAll(words[..i]).Some?
      invariant forall j :: 0 <= j < CLUSTER_SLOTS ==>
        c.slots[j] == if Covered(ParseAll(words[..i]).value, j) && old(c.slots)[j] == null then n else old(c.slots)[j]
      invariant free ==> refused == 0
    {
      ParseNext(words, i);
      var r := Parse(words[i]);
      if r == None { return false, refused; }
      ghost var rs := ParseAll(words[..i]).value;
      ParsedRange(words[i]);
      CoveredNext(rs, r.value);
      if free { StillFree(old(c.slots), c.slots, words, i, n); }
      var refusals := AddRange(c, n, r.value);
      refused := refused + refusals;
    }
    assert words[..|words|] == words;
    ok := true;
  }

  /** The ranges are apart, and nobody has any of their slots. */
  ghost predicate Free(slots: seq<ClusterNode?>, rs: seq<Range>) {
    && |slots| == CLUSTER_SLOTS && Sorted(rs)
    && forall j :: 0 <= j < CLUSTER_SLOTS && Covered(rs, j) ==> slots[j] == null
  }

  lemma ParsedRange(word: seq<byte>)
    ensures Parse(word).Some? ==> Parse(word).value.start < CLUSTER_SLOTS && Parse(word).value.stop < CLUSTER_SLOTS
  {
  }

  lemma CoveredNext(rs: seq<Range>, r: Range)
    ensures forall j :: Covered(rs + [r], j) <==> Covered(rs, j) || Covers(r, j)
  {
    forall j: nat
      ensures Covered(rs + [r], j) <==> Covered(rs, j) || Covers(r, j)
    {
      CoveredAppend(rs, r, j);
    }
  }

  /** Reading a line succeeds word by word. */
  lemma {:induction false} ParseNext(words: seq<seq<byte>>, i: nat)
    requires i < |words| && ParseAll(words[..i]).Some?
    ensures ParseAll(words[..i + 1]) ==
            if Parse(words[i]).Some? then Some(ParseAll(words[..i]).value + [Parse(words[i]).value]) else None
    ensures ParseAll(words).Some? ==> Parse(words[i]).Some? && ParseAll(words[..i + 1]).value <= ParseAll(words).value
  {
    assert words[..i + 1][..i] == words[..i];
    ParsePrefix(words, i + 1);
  }

  lemma {:induction false} ParsePrefix(words: seq<seq<byte>>, i: nat)
    requires i <= |words|
    ensures ParseAll(words).Some? ==> ParseAll(words[..i]).Some? && ParseAll(words[..i]).value <= ParseAll(words).value
    decreases |words|
  {
    if i == |words| {
      assert words[..i] == words;
    } else {
      var n := |words| - 1;
      ParsePrefix(words[..n], i);
      assert words[..n][..i] == words[..i];
    }
  }

  /** The next range is free as well, since it is apart from those before it. */
  lemma StillFree(slots0: seq<ClusterNode?>, slots: seq<ClusterNode?>, words: seq<seq<byte>>, i: nat, n: ClusterNode)
    requires i < |words| && ParseAll(words).Some? && ParseAll(words[..i]).Some? && Free(slots0, ParseAll(words).value)
    requires |slots| == CLUSTER_SLOTS
    requires forall j :: 0 <= j < CLUSTER_SLOTS ==>
      slots[j] == if Covered(ParseAll(words[..i]).value, j) && slots0[j] == null then n else slots0[j]
    ensures Parse(words[i]).Some?
    ensures forall j: nat :: Covers(Parse(words[i]).value, j) ==> j < CLUSTER_SLOTS && slots[j] == null
  {
    hide Parse, ParseAll, Free, Covers;
    ParseNext(words, i);
    ParsedRange(words[i]);
    NextIsFree(slots0, slots, ParseAll(words).value, ParseAll(words[..i]).value, Parse(words[i]).value, n);
  }

  lemma NextIsFree(slots0: seq<ClusterNode?>, slots: seq<ClusterNode?>, all: seq<Range>, rs: seq<Range>, r: Range,
      n: ClusterNode)
    requires Free(slots0, all) && rs + [r] <= all && r.stop < CLUSTER_SLOTS && |slots| == CLUSTER_SLOTS
    requires forall j :: 0 <= j < CLUSTER_SLOTS ==>
      slots[j] == if Covered(rs, j) && slots0[j] == null then n else slots0[j]
    ensures forall j: nat :: Covers(r, j) ==> j < CLUSTER_SLOTS && slots[j] == null
  {
    assert all[|rs|] == r;
    assert r in all;
    forall j: nat | Covers(r, j)
      ensures j < CLUSTER_SLOTS && slots[j] == null
    {
      assert Covered(all, j);
      forall q <- rs
        ensures !Covers(q, j)
      {
        var k :| 0 <= k < |rs| && rs[k] == q;
        assert all[k] == q;
      }
    }
  }

  lemma BitmapsEqual(b: Bitmap, c: Bitmap)
    requires forall j :: 0 <= j < CLUSTER_SLOTS ==> TestBit(b, j) == TestBit(c, j)
    ensures b == c
  {
    forall k | 0 <= k < 2048
      ensures b[k] == c[k]
    {
      forall i | 0 <= i < 8
        ensures Bit(b[k], i) == Bit(c[k], i)
      {
        var j := 8 * k + i;
        assert j / 8 == k && j % 8 == i;
        assert TestBit(b, j) == TestBit(c, j);
      }
      assert Pow2(8) == 256;
      SameBits(b[k], c[k], 8);
    }
  }

  /** The first i nodes were loaded: their slots are those of their counterparts, and nobody has the others. */
  ghost predicate LoadedUpTo(saved: seq<ClusterNode?>, ns: seq<ClusterNode>, loaded: seq<ClusterNode?>,
      ms: seq<ClusterNode>, i: nat) {
    && |saved| == |loaded| == CLUSTER_SLOTS && i <= |ns| == |ms|
    && (forall j, k :: 0 <= j < CLUSTER_SLOTS && 0 <= k < i && saved[j] == ns[k] ==> loaded[j] == ms[k])
    && (forall j :: 0 <= j < CLUSTER_SLOTS && (forall k :: 0 <= k < i ==> saved[j] != ns[k]) ==> loaded[j] == null)
  }

  ghost predicate Adds(slots: seq<ClusterNode?>, next: seq<ClusterNode?>, n: ClusterNode, rs: seq<Range>)
    requires |slots| == CLUSTER_SLOTS
  {
    && |next| == CLUSTER_SLOTS
    && forall j :: 0 <= j < CLUSTER_SLOTS ==> next[j] == if Covered(rs, j) && slots[j] == null then n else slots[j]
  }

  /** The slots of the next node are free, and loading them extends what was loaded. */
  lemma LoadNext(saved: Cluster, ns: seq<ClusterNode>, loaded: seq<ClusterNode?>, ms: seq<ClusterNode>, i: nat,
      rs: seq<Range>)
    requires saved.Valid() && i < |ns| && ns[i] in saved.nodes && Distinct(ns)
    requires LoadedUpTo(saved.slots, ns, loaded, ms, i) && RangesOf(ns[i].bitmap, rs)
    ensures Free(loaded, rs)
    ensures forall next :: Adds(loaded, next, ms[i], rs) ==> LoadedUpTo(saved.slots, ns, next, ms, i + 1)
  {
    hide TestBit, Covered, Sorted;
    assert saved.NodeOk(ns[i]);
    forall j | 0 <= j < CLUSTER_SLOTS && Covered(rs, j)
      ensures loaded[j] == null
    {
      assert saved.slots[j] == ns[i];
    }
  }

  /** Saving every node's slots and loading them into an empty table restores the table, and nothing is refused. */
  method SaveAndLoad(saved: Cluster, ns: seq<ClusterNode>, loaded: Cluster, ms: seq<ClusterNode>)
      returns (ok: bool, refused: nat)
    requires saved.Valid() && loaded.Valid() && saved != loaded && saved.nodes !! loaded.nodes
    requires Distinct(ns) && Distinct(ms) && |ns| == |ms|
    requires (forall n :: n in ns <==> n in saved.nodes) && (forall m <- ms :: m in loaded.nodes)
    requires forall j :: 0 <= j < CLUSTER_SLOTS ==> loaded.slots[j] == null
    modifies loaded`slots, loaded.nodes`bitmap, loaded.nodes`numSlots
    ensures loaded.Valid() && ok && refused == 0
    ensures forall j :: 0 <= j < CLUSTER_SLOTS ==> (loaded.slots[j] == null <==> saved.slots[j] == null)
    ensures forall i, j :: 0 <= i < |ns| && 0 <= j < CLUSTER_SLOTS ==>
      (loaded.slots[j] == ms[i] <==> saved.slots[j] == ns[i])
    ensures forall i :: 0 <= i < |ns| ==> ms[i].bitmap == ns[i].bitmap && ms[i].numSlots == ns[i].numSlots
  {
    hide Cluster.NodeOk, RangesOf, Covered, Free, ParseAll, Words;
    ok, refused := true, 0;
    for i := 0 to |ns|
      invariant loaded.Valid() && saved.Valid() && ok && refused == 0
      invariant LoadedUpTo(saved.slots, ns, loaded.slots, ms, i)
    {
      var words := PrintRanges(ns[i].bitmap);
      ghost var rs := ParseAll(words).value;
      LoadNext(saved, ns, loaded.slots, ms, i, rs);
      assert ms[i] in loaded.nodes;
      ghost var before := loaded.slots;
      var good, refusals := LoadWords(loaded, ms[i], words);
      assert Adds(before, loaded.slots, ms[i], rs);
      ok, refused := ok && good, refused + refusals;
    }
    AllLoaded(saved, ns, loaded, ms);
  }

  lemma AllLoaded(saved: Cluster, ns: seq<ClusterNode>, loaded: Cluster, ms: seq<ClusterNode>)
    requires saved.Valid() && loaded.Valid() && LoadedUpTo(saved.slots, ns, loaded.slots, ms, |ns|)
    requires Distinct(ns) && Distinct(ms) && (forall n :: n in ns <==> n in saved.nodes)
    requires forall m <- ms :: m in loaded.nodes
    ensures forall j :: 0 <= j < CLUSTER_SLOTS ==> (loaded.slots[j] == null <==> saved.slots[j] == null)
    ensures forall i, j :: 0 <= i < |ns| && 0 <= j < CLUSTER_SLOTS ==>
      (loaded.slots[j] == ms[i] <==> saved.slots[j] == ns[i])
    ensures forall i :: 0 <= i < |ns| ==> ms[i].bitmap == ns[i].bitmap && ms[i].numSlots == ns[i].numSlots
  {
    hide TestBit, Cluster.NodeOk;
    forall j | 0 <= j < CLUSTER_SLOTS && saved.slots[j] != null
      ensures exists k :: 0 <= k < |ns| && saved.slots[j] == ns[k] && loaded.slots[j] == ms[k]
    {
      var k :| 0 <= k < |ns| && saved.slots[j] == ns[k];
    }
    forall i | 0 <= i < |ns|
      ensures ms[i].bitmap == ns[i].bitmap && ms[i].numSlots == ns[i].numSlots
    {
      assert ns[i] in ns && ms[i] in ms;
      SameSlots(saved, ns[i], loaded, ms[i]);
    }
  }

  lemma SameSlots(a: Cluster, n: ClusterNode, b: Cluster, m: ClusterNode)
    requires a.NodeOk(n) && b.NodeOk(m)
    requires forall j :: 0 <= j < CLUSTER_SLOTS ==> (a.slots[j] == n <==> b.slots[j] == m)
    ensures n.bitmap == m.bitmap && n.numSlots == m.numSlots
  {
    BitmapsEqual(n.bitmap, m.bitmap);
  }
}
