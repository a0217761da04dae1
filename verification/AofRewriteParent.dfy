/** The parent of a rewrite: its handlers work on the blocks of the rewrite buffer and are steps of the protocol. */
module AofRewriteParent {
  import opened Prelude
  import opened AofRewriteBuffer
  import AofRewrite

  class Parent {
    const buffer: RewriteBuffer
    var s: AofRewrite.State

    /** What the protocol calls pending is what the blocks hold. */
    ghost predicate Valid()
      reads this, buffer
    {
      buffer.Valid() && Contents(buffer.blocks) == s.pending && buffer.stopSending == s.stop
    }

    /** Right after the fork. */
    constructor (start: AofRewrite.State)
      requires AofRewrite.Forked(start)
      ensures Valid() && s == start && fresh(buffer)
    {
      buffer := new RewriteBuffer();
      s := start;
    }

    /** The end of feedAppendOnlyFile. */
    method Feed(bytes: seq<byte>)
      requires Valid()
      modifies this, buffer
      ensures Valid() && s == AofRewrite.Apply(old(s), AofRewrite.Feed(bytes))
    {
      hide Contents;
      if s.outcome == AofRewrite.Running { buffer.Append(bytes); }
      s := AofRewrite.FeedStep(s, bytes);
    }

    /** aofChildWriteDiffData, called while the rewrite runs. */
    method SendDiff(replies: seq<WriteReply>) returns (sent: seq<byte>)
      requires Valid() && s.outcome == AofRewrite.Running
      modifies this, buffer
      ensures Valid() && s == AofRewrite.Apply(old(s), AofRewrite.SendDiff(|sent|))
      ensures s.data == old(s).data + sent
    {
      hide Contents;
      ghost var pending := s.pending;
      sent := buffer.SendDiff(replies);
      assert pending[..|sent|] == sent && pending[|sent|..] == Contents(buffer.blocks);
      assert s.data + [] == s.data;
      s := AofRewrite.Apply(s, AofRewrite.SendDiff(|sent|));
    }

    /** aofChildPipeReadable: the child asked to stop. */
    method ChildPipeReadable(answered: bool)
      requires Valid() && s.outcome == AofRewrite.Running && s.asks > 0
      modifies this, buffer
      ensures Valid() && s == AofRewrite.Apply(old(s), AofRewrite.HandleAsk(answered))
    {
      buffer.stopSending := true;
      s := s.(asks := s.asks - 1, stop := true, acks := if answered then s.acks + 1 else s.acks);
    }

    /** backgroundRewriteDoneHandler: the residual buffer goes to the child's file, which then replaces the log. */
    method RewriteDone(replies: seq<WriteReply>, renamed: bool) returns (ghost written: nat)
      requires Valid() && s.outcome == AofRewrite.Running && (s.phase.Finished? || s.phase == AofRewrite.Died)
      modifies this, buffer
      ensures Valid() && s == AofRewrite.Apply(old(s), AofRewrite.Done(written, renamed))
      ensures s.outcome == AofRewrite.Succeeded <==>
              old(s).phase.Finished? && renamed && TakesAll(old(buffer.blocks), replies)
    {
      hide Contents;
      written := 0;
      var succeeded := false;
      var file := [];
      if s.phase.Finished? {
        var ok, count;
        file, ok, count := buffer.WriteTo(s.phase.file, replies);
        if ok { written := count; }
        succeeded := ok && renamed;
      }
      buffer.Reset();
      if succeeded {
        s := s.(log := if s.aof == AofRewrite.Off then s.log else file,
                aofBuf := if s.aof == AofRewrite.Off then s.aofBuf else [],
                aof := if s.aof == AofRewrite.WaitRewrite then AofRewrite.On else s.aof,
                outcome := AofRewrite.Succeeded, pending := []);
      } else {
        s := s.(outcome := AofRewrite.Abandoned, pending := []);
      }
    }
  }
}
