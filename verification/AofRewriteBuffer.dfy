/**
 The AOF rewrite buffer: the blocks in which the parent keeps what was written since the fork.
 Bytes are appended at the end of the last block and leave from the front of the first one,
 a partial write being followed by a memmove inside the block.
 */
module AofRewriteBuffer {
  import opened Prelude

  const BLOCK_SIZE: nat := 10 * 1024 * 1024

  /** A block: only buf[..used] is meaningful. */
  datatype Block = Block(buf: seq<byte>, used: nat, free: nat)

  predicate BlockOk(b: Block) {
    |b.buf| == BLOCK_SIZE && b.used + b.free == BLOCK_SIZE
  }

  function Data(b: Block): (data: seq<byte>)
    requires BlockOk(b)
    ensures |data| == b.used
  {
    b.buf[..b.used]
  }

  predicate BlocksOk(blocks: seq<Block>) {
    forall i :: 0 <= i < |blocks| ==> BlockOk(blocks[i])
  }

  /** The bytes held by a list of blocks, first to last. */
  function Contents(blocks: seq<Block>): seq<byte>
    requires BlocksOk(blocks)
  {
    if blocks == [] then [] else Data(blocks[0]) + Contents(blocks[1..])
  }

  /** memcpy to the free space of a block. */
  function CopyIn(b: Block, s: seq<byte>): Block
    requires BlockOk(b) && |s| <= b.free
  {
    Block(b.buf[..b.used] + s + b.buf[b.used + |s|..], b.used + |s|, b.free - |s|)
  }

  /** memmove of what is left after the first n bytes were written. */
  function MoveOut(b: Block, n: nat): Block
    requires BlockOk(b) && n <= b.used
  {
    Block(b.buf[n..b.used] + b.buf[b.used - n..], b.used - n, b.free + n)
  }

  lemma CopyInAppends(b: Block, s: seq<byte>)
    requires BlockOk(b) && |s| <= b.free
    ensures BlockOk(CopyIn(b, s)) && Data(CopyIn(b, s)) == Data(b) + s
  {
  }

  lemma MoveOutRemoves(b: Block, n: nat)
    requires BlockOk(b) && n <= b.used
    ensures BlockOk(MoveOut(b, n)) && Data(b)[..n] + Data(MoveOut(b, n)) == Data(b)
  {
  }

  lemma {:induction false} ContentsConcat(a: seq<Block>, b: seq<Block>)
    requires BlocksOk(a) && BlocksOk(b)
    ensures BlocksOk(a + b) && Contents(a + b) == Contents(a) + Contents(b)
  {
    if a == [] {
      assert a + b == b;
    } else {
      assert (a + b)[1..] == a[1..] + b;
      ContentsConcat(a[1..], b);
    }
  }

  lemma ContentsLast(blocks: seq<Block>)
    requires blocks != [] && BlocksOk(blocks)
    ensures Contents(blocks) == Contents(blocks[..|blocks| - 1]) + Data(blocks[|blocks| - 1])
  {
    var last := blocks[|blocks| - 1];
    assert blocks == blocks[..|blocks| - 1] + [last];
    ContentsConcat(blocks[..|blocks| - 1], [last]);
    assert Contents([last]) == Data(last);
  }

  function FillLast(blocks: seq<Block>, s: seq<byte>): seq<Block>
    requires blocks != [] && BlocksOk(blocks) && |s| <= blocks[|blocks| - 1].free
  {
    blocks[|blocks| - 1 := CopyIn(blocks[|blocks| - 1], s)]
  }

  lemma FillLastAppends(blocks: seq<Block>, s: seq<byte>)
    requires blocks != [] && BlocksOk(blocks) && |s| <= blocks[|blocks| - 1].free
    ensures BlocksOk(FillLast(blocks, s)) && Contents(FillLast(blocks, s)) == Contents(blocks) + s
  {
    CopyInAppends(blocks[|blocks| - 1], s);
    hide CopyIn;
    SetLastAppends(blocks, CopyIn(blocks[|blocks| - 1], s), s);
  }

  lemma SetLastAppends(blocks: seq<Block>, b: Block, s: seq<byte>)
    requires blocks != [] && BlocksOk(blocks) && BlockOk(b) && Data(b) == Data(blocks[|blocks| - 1]) + s
    ensures BlocksOk(blocks[|blocks| - 1 := b]) && Contents(blocks[|blocks| - 1 := b]) == Contents(blocks) + s
  {
    hide Data, Contents, BlockOk;
    var k := |blocks| - 1;
    var filled := blocks[k := b];
    ContentsLast(blocks);
    ContentsLast(filled);
    assert filled[..k] == blocks[..k];
    assert Contents(filled) == Contents(blocks[..k]) + (Data(blocks[k]) + s);
  }

  function EmptyBlock(): (b: Block)
    ensures BlockOk(b) && Data(b) == []
  {
    Block(seq(BLOCK_SIZE, _ => 0), 0, BLOCK_SIZE)
  }

  lemma EmptyBlockAddsNothing(blocks: seq<Block>)
    requires BlocksOk(blocks)
    ensures BlocksOk(blocks + [EmptyBlock()]) && Contents(blocks + [EmptyBlock()]) == Contents(blocks)
  {
    ContentsConcat(blocks, [EmptyBlock()]);
    assert Contents([EmptyBlock()]) == [];
  }

  function DrainFirst(blocks: seq<Block>, n: nat): (drained: seq<Block>)
    requires blocks != [] && BlocksOk(blocks) && n <= blocks[0].used
    ensures |drained| == |blocks|
  {
    blocks[0 := MoveOut(blocks[0], n)]
  }

  lemma DrainFirstRemoves(blocks: seq<Block>, n: nat)
    requires blocks != [] && BlocksOk(blocks) && n <= blocks[0].used
    ensures BlocksOk(DrainFirst(blocks, n))
    ensures Data(blocks[0])[..n] + Contents(DrainFirst(blocks, n)) == Contents(blocks)
  {
    hide MoveOut, Data;
    MoveOutRemoves(blocks[0], n);
    var drained := DrainFirst(blocks, n);
    assert drained[1..] == blocks[1..];
    assert Contents(drained) == Data(drained[0]) + Contents(blocks[1..]);
    var front, back, rest := Data(blocks[0])[..n], Data(drained[0]), Contents(blocks[1..]);
    hide Contents;
    assert front + (back + rest) == (front + back) + rest;
  }

  lemma DrainFirstUses(blocks: seq<Block>, n: nat)
    requires blocks != [] && BlocksOk(blocks) && n <= blocks[0].used
    ensures DrainFirst(blocks, n)[0].used == blocks[0].used - n && DrainFirst(blocks, n)[1..] == blocks[1..]
  {
  }

  lemma NoContents(blocks: seq<Block>)
    requires BlocksOk(blocks)
    ensures blocks == [] ==> Contents(blocks) == []
  {
  }

  lemma EmptyFirstHoldsNothing(blocks: seq<Block>)
    requires blocks != [] && BlocksOk(blocks) && blocks[0].used == 0
    ensures Contents(blocks[1..]) == Contents(blocks)
  {
    assert Data(blocks[0]) == [];
  }

  /** The contents up to a block, that block, and the contents after it. */
  lemma ContentsAround(blocks: seq<Block>, i: nat)
    requires BlocksOk(blocks) && i < |blocks|
    ensures Contents(blocks[..i + 1]) == Contents(blocks[..i]) + Data(blocks[i])
    ensures Contents(blocks) == Contents(blocks[..i]) + Data(blocks[i]) + Contents(blocks[i + 1..])
  {
    ContentsLast(blocks[..i + 1]);
    assert blocks[..i + 1][..i] == blocks[..i];
    assert blocks == blocks[..i + 1] + blocks[i + 1..];
    ContentsConcat(blocks[..i + 1], blocks[i + 1..]);
  }

  lemma NothingLeft(blocks: seq<Block>, replies: seq<WriteReply>)
    requires blocks == []
    ensures TakesAll(blocks, replies)
  {
  }

  /** What the kernel answers to one write(2). */
  datatype WriteReply = Wrote(n: nat) | Failed

  /** The kernel takes every block that is not empty at once. */
  predicate TakesAll(blocks: seq<Block>, replies: seq<WriteReply>) {
    if blocks == [] then true
    else if blocks[0].used == 0 then TakesAll(blocks[1..], replies)
    else replies != [] && replies[0].Wrote? && replies[0].n >= blocks[0].used && TakesAll(blocks[1..], replies[1..])
  }

  lemma TakesAllFrom(blocks: seq<Block>, i: nat, replies: seq<WriteReply>, r: nat)
    requires i < |blocks| && r <= |replies|
    ensures TakesAll(blocks[i..], replies[r..]) ==
            if blocks[i].used == 0 then TakesAll(blocks[i + 1..], replies[r..])
            else r < |replies| && replies[r].Wrote? && replies[r].n >= blocks[i].used
                 && TakesAll(blocks[i + 1..], replies[r + 1..])
  {
    assert blocks[i..][1..] == blocks[i + 1..];
    assert r < |replies| ==> replies[r..][1..] == replies[r + 1..];
  }

  class RewriteBuffer {
    var blocks: seq<Block>
    var stopSending: bool      // aof_stop_sending_diff
    var writeHandler: bool     // AE_WRITABLE handler installed on the data pipe

    ghost predicate Valid()
      reads this
    {
      BlocksOk(blocks)
    }

    constructor ()
      ensures Valid() && Contents(blocks) == [] && !stopSending && !writeHandler
    {
      blocks := [];
      stopSending := false;
      writeHandler := false;
    }

    /** aofRewriteBufferAppend */
    method Append(s: seq<byte>)
      requires Valid()
      modifies this
      ensures Valid() && Contents(blocks) == old(Contents(blocks)) + s
      ensures writeHandler && stopSending == old(stopSending)
    {
      var rest := s;
      hide FillLast, Contents;
      while |rest| > 0
        invariant Valid() && Contents(blocks) + rest == old(Contents(blocks)) + s
        invariant stopSending == old(stopSending)
        decreases |rest|, if blocks == [] || blocks[|blocks| - 1].free == 0 then 1 else 0
      {
        if blocks != [] {
          var len := Min(blocks[|blocks| - 1].free, |rest|);
          if len > 0 {
            FillLastAppends(blocks, rest[..len]);
            assert rest == rest[..len] + rest[len..];
            blocks := FillLast(blocks, rest[..len]);
            rest := rest[len..];
          }
        }
        if |rest| > 0 {
          EmptyBlockAddsNothing(blocks);
          blocks := blocks + [EmptyBlock()];
        }
      }
      writeHandler := true;
    }

    /** aofChildWriteDiffData: sends what the pipe takes, unless the child asked to stop. */
    method SendDiff(replies: seq<WriteReply>) returns (sent: seq<byte>)
      requires Valid()
      modifies this
      ensures Valid() && sent + Contents(blocks) == old(Contents(blocks))
      ensures stopSending == old(stopSending) && (stopSending ==> sent == [])
      ensures !stopSending && TakesAll(old(blocks), replies) ==> sent == old(Contents(blocks)) && blocks == []
      ensures !stopSending && old(Contents(blocks)) != [] && replies != [] && replies[0].Wrote? && replies[0].n > 0 ==>
        sent != []
    {
      sent := [];
      var i := 0;
      hide Data, DrainFirst, BlockOk, Contents, TakesAll;
      assert replies[0..] == replies;
      while true
        invariant Valid() && sent + Contents(blocks) == old(Contents(blocks))
        invariant i <= |replies| && stopSending == old(stopSending) && (stopSending ==> sent == [])
        invariant !stopSending && TakesAll(old(blocks), replies) ==> TakesAll(blocks, replies[i..])
        invariant i > 0 ==> sent != []
        decreases |replies| - i, |blocks|
      {
        if stopSending || blocks == [] {
          NoContents(blocks);
          writeHandler := false;
          return;
        }
        TakesAllFrom(blocks, 0, replies, i);
        assert blocks[0..] == blocks;
        if blocks[0].used > 0 {
          if i == |replies| || replies[i].Failed? || replies[i].n == 0 {
            return;
          }
          var n := Min(replies[i].n, blocks[0].used);
          i := i + 1;
          DrainFirstRemoves(blocks, n);
          DrainFirstUses(blocks, n);
          sent := sent + Data(blocks[0])[..n];
          blocks := DrainFirst(blocks, n);
        }
        if blocks[0].used == 0 {
          EmptyFirstHoldsNothing(blocks);
          blocks := blocks[1..];
        }
      }
    }

    /** aofRewriteBufferWrite: the whole buffer into the rewritten file, or an error. */
    method WriteTo(file: seq<byte>, replies: seq<WriteReply>) returns (file': seq<byte>, ok: bool, count: nat)
      requires Valid()
      ensures ok <==> TakesAll(blocks, replies)
      ensures ok ==> file' == file + Contents(blocks) && count == |Contents(blocks)|
      ensures exists k: nat ::
        k <= |Contents(blocks)| && file' == file + Contents(blocks)[..k] && (k < |Contents(blocks)| || ok)
    {
      file', ok, count := file, true, 0;
      var i, r := 0, 0;
      assert blocks[0..] == blocks && replies[0..] == replies;
      hide TakesAll;
      while i < |blocks|
        invariant i <= |blocks|
        invariant file' == file + Contents(blocks[..i]) && count == |Contents(blocks[..i])|
        invariant r <= |replies| && (TakesAll(blocks[i..], replies[r..]) <==> TakesAll(blocks, replies))
      {
        ContentsAround(blocks, i);
        TakesAllFrom(blocks, i, replies, r);
        var block := blocks[i];
        if block.used > 0 {
          var n := if r < |replies| && replies[r].Wrote? then Min(replies[r].n, block.used) else 0;
          if r < |replies| { r := r + 1; }
          ghost var k := |Contents(blocks[..i])| + n;
          assert Contents(blocks)[..k] == Contents(blocks[..i]) + Data(block)[..n];
          file' := file' + Data(block)[..n];
          if n != block.used {
            ok := false;
            assert file' == file + Contents(blocks)[..k];
            return;
          }
          count := count + n;
        }
        i := i + 1;
      }
      assert blocks[..i] == blocks;
      NothingLeft(blocks[i..], replies[r..]);
      assert Contents(blocks)[..|Contents(blocks)|] == Contents(blocks);
    }

    /** aofRewriteBufferSize */
    method Size() returns (size: nat)
      requires Valid()
      ensures size == |Contents(blocks)|
    {
      size := 0;
      var i := 0;
      while i < |blocks|
        invariant i <= |blocks|
        invariant size == |Contents(blocks[..i])|
      {
        ContentsAround(blocks, i);
        size := size + blocks[i].used;
        i := i + 1;
      }
      assert blocks[..i] == blocks;
    }

    /** aofRewriteBufferReset */
    method Reset()
      modifies this
      ensures Valid() && Contents(blocks) == [] && unchanged(`stopSending) && unchanged(`writeHandler)
    {
      blocks := [];
    }
  }
}
