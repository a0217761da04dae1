# Model of the hard parts of a Redis 5.0.10 tree and of two thread exercises

Dafny models of the parts of the repository whose correctness is not visible in any one function, with proofs about
all inputs, all runs and all interleavings.

- **Cluster bus** (`Cluster*.dfy`, `Slot*.dfy`): elections and epochs as a system of nodes and messages in flight
  (`ClusterBus`), in which a run is any list of actions; slot ownership as objects that update a table, bitmaps and
  counters (`ClusterSlots`), the meaning of claims over time (`SlotClaims`), and the ranges of nodes.conf
  (`SlotRanges`, `ClusterConfig`).
- **Append only file** (`Aof*.dfy`): the format, the loader and what it makes of broken files, feeding, flushing
  with short writes, the rewrite buffer, the rewrite protocol between parent and child, and the parent whose handlers
  are its steps.
- **Blocked clients** (`Blocked*.dfy`): the two-way index between clients and keys, and the loop that serves ready keys.
- **Bit operations** (`Bit*.dfy`, `Popcount.dfy`): popcount, bit search and bit fields against sequences of bits.
- **Lists and events** (`Adlist.dfy`, `EventLoop.dfy`): the pointer list against sequences of nodes, and the event table
  against the interest set of the kernel.
- **Threads** (`ThreadPool.dfy`, `BoundedBuffer.dfy`): semaphore and mutex protocols for any number of threads.

Where the code does not have a property one would expect, the model keeps the code, and the project shows an input and
says when the property holds:

- An ack that arrives between the scheduling of a new attempt and its start is counted for the new attempt, since
  scheduling zeroes the count (cluster.c:3053) but the epoch of the attempt is set only at its start (cluster.c:3115).
  Two replicas can then win one epoch (`LateAckBreaksSafety`); `DoubleWinNeedsStaleBallots` says how many such ballots
  that takes, and `FreshThroughoutIff` when there are none.
- A claim is compared with the recorded epoch of the slot's owner, not with the epoch of the owner's claim on that slot
  (cluster.c:1593-1594). If the owner lost the slot and then took a greater epoch for another one, nodes that hear of
  this in different orders end with different tables (`DroppedSlotDiverges`); `OrderIndependentIff` says when not.
- A replica without a master reads a counter through a null pointer when a free slot is claimed
  (`UpdateSlotsConfigWith`, `ReplicaWithoutMaster`). A running node does not get there, since CLUSTER FORGET refuses
  one's own master (cluster.c:4609); a nodes.conf whose own line has the slave flag and no master does.
- A read that fails while the child drains the pipe is taken for an empty pipe, and the rewrite succeeds without the
  bytes left in it (`FailedReadLosesBytes`, `RewriteIsExact`).
- A file cut inside a command of an open MULTI is kept with the MULTI in it, which swallows what is appended later
  (`MultiSwallowsAppended`, `AppendAfterTruncation`).
- SET of a signed field far below its range saturates to the highest value (`SetFarBelowStoresHighest`,
  `SignedBounded`).
- Registering an empty mask for an unused descriptor breaks the event table (`RegisterNothing`, `CreateFileEvent`).

An UPDATE packet would be believed even if its sender were in handshake (`UpdateKeepsEpochsIff`), but on the bus it
never is: an entry in handshake has a random name until the handshake ends (`SendersAreTrusted`). Only a nodes.conf
edited by hand (cluster.c:208-209) files one under a real name (`HandshakeUpdateBreaksEpochs`).

`dafny verify dfyconfig.toml` verifies the project.

## Model

| member | source | states |
|---|---|---|
| `ClusterElectionRuns.ElectionSafety` | lesson07/redis-5.0.10/src/cluster.c:2737-2838 | In every run whose elections all start with a zero count, two replicas that take their quorum over the same masters never win the same epoch |
| `ClusterElectionRuns.LateAckBreaksSafety` | lesson07/redis-5.0.10/src/cluster.c:3049-3142 | Without that condition it fails: a run in which an ack of an abandoned attempt is counted for the next one, and replicas 4 and 5 both win epoch 2 over masters 1, 2 and 3 |
| `ClusterElection.DoubleWinNeedsStaleBallots` | lesson07/redis-5.0.10/src/cluster.c:2076-2088 | In every run at all, two winners of one epoch need between them at least 2 * quorum - masters ballots of older epochs |
| `ClusterElection.WinnersOfAnEpochShareNoVoter` | lesson07/redis-5.0.10/src/cluster.c:2737-2838 | In every run, with node tables that disagree and change at will, no master voted for two winners of an epoch in that epoch |
| `ClusterElection.WinsHaveQuorum` | lesson07/redis-5.0.10/src/cluster.c:3126-3142 | A replica that passes the quorum test has counted a quorum of different ballots, none from a later epoch |
| `ClusterElection.RunKeepsInv` | lesson07/redis-5.0.10/src/cluster.c:2073-2088 | The election invariant (one ballot per master and epoch, every ack in flight is its voter's ballot and uncounted, counts equal the ballots behind them) is kept by every run |
| `ClusterElectionRuns.RunKeepsFresh` | lesson07/redis-5.0.10/src/cluster.c:3049-3117 | In runs whose elections start clean, every counted ballot belongs to the attempt it is counted for |
| `ClusterElectionRuns.FreshThroughoutIff` | lesson07/redis-5.0.10/src/cluster.c:3049-3117 | and only in those: freshness holds at every moment of a run if and only if every election of it starts with a zero count |
| `ClusterVoters.AgreedTablesAreSafe` | lesson07/redis-5.0.10/src/cluster.c:2073-2088 | No epoch has two winners whose own tables agreed on the masters with slots from the start of their election until they won, in runs whose elections start clean; other tables and other times do not matter |
| `ClusterTakeover.MajorityTakesOver` | lesson07/redis-5.0.10/src/cluster.c:3125-3142 | The quorum check makes a replica that counted more than half of the masters a master with slots under the greater of its own epoch and its election's, records the win and changes nothing else; without a majority nothing changes |
| `ClusterTakeover.WinnersHadTheirEpoch` | lesson07/redis-5.0.10/src/cluster.c:3132-3135 | In every run, whoever won an election had at some time a configEpoch of at least that election's |
| `ClusterTakeover.WinnersTakeDifferentEpochs` | lesson07/redis-5.0.10/src/cluster.c:3132-3135 | In runs whose elections start clean, two replicas over the same masters never take the same configEpoch from their elections |
| `ClusterPackets.HeaderIsLearned` | lesson07/redis-5.0.10/src/cluster.c:1733-1744 | Whatever the packet, no other node changes, the receiver's currentEpoch and its record of the sender do not fall, and a sender past its handshake raises both to what it says |
| `ClusterPackets.VoteGivenIff` | lesson07/redis-5.0.10/src/cluster.c:2737-2838 | A vote is given, recorded and acknowledged if and only if the voter is a master with slots, the request is not older, this epoch has no vote yet, the sender is a replica of a known master, and the checks pass |
| `ClusterPackets.AckCountedIff` | lesson07/redis-5.0.10/src/cluster.c:2076-2088 | An ack is counted if and only if its sender is known as a master with slots and it is not from before the election |
| `ClusterPackets.UpdateIsBelieved` | lesson07/redis-5.0.10/src/cluster.c:2101-2122 | An UPDATE of a known sender with a greater epoch makes the node a master under that epoch; any other changes nothing beyond the header |
| `ClusterPackets.PingTellsRole` | lesson07/redis-5.0.10/src/cluster.c:1914-1948 | A ping sets the sender's role: a master that became a replica loses its slots, and an unknown new master leaves the old one |
| `ClusterPackets.PingCarriesEpochs` | lesson07/redis-5.0.10/src/cluster.c:2278-2326 | A packet carries the sender's currentEpoch and its configEpoch, or the one of its master if it is a replica |
| `ClusterPackets.ElectionStarts` | lesson07/redis-5.0.10/src/cluster.c:3112-3124 | An election starts in a new epoch, with a request of that epoch to every recipient |
| `ClusterPackets.ScheduleForgetsVotes` | lesson07/redis-5.0.10/src/cluster.c:3049-3055 | Scheduling an attempt forgets the votes counted so far |
| `ClusterPackets.HandshakeEnds` | lesson07/redis-5.0.10/src/cluster.c:1824-1851 | At the end of a handshake the entry leaves its random name for the real one, or goes if that is known |
| `ClusterPackets.MeetFilesHandshake` | lesson07/redis-5.0.10/src/cluster.c:1325-1351 | Meeting a node adds one entry, in handshake and under a new name |
| `ClusterPackets.ForgetAndDrop` | lesson07/redis-5.0.10/src/cluster.c:4599-4617 | Forgetting removes one entry and never the node's own; a dropped packet is gone |
| `ClusterPackets.EpochSetByHand` | lesson07/redis-5.0.10/src/cluster.c:4745-4775 | The epoch is set by hand only on a node that knows nobody and has none |
| `ClusterEpochs.EpochInvariant` | lesson07/redis-5.0.10/src/cluster.c:1733-1744 | In every run, each node's currentEpoch is at least every configEpoch of its table and each packet's currentEpoch at least the configEpochs it carries |
| `ClusterNames.ApplyKeepsNames` | lesson07/redis-5.0.10/src/cluster.c:1325-1351 | Every action keeps entries in handshake under names that no node has, and packets under the name of their sender |
| `ClusterNames.SendersAreTrusted` | lesson07/redis-5.0.10/src/cluster.c:1836-1851 | so the sender of a packet, looked up by name, is never an entry in handshake |
| `ClusterEpochs.UpdateKeepsEpochsIff` | lesson07/redis-5.0.10/src/cluster.c:2101-2118 | Processing an UPDATE keeps the table below currentEpoch if and only if the sender or the node is unknown, the sender is past its handshake, or the epoch is not above currentEpoch |
| `ClusterEpochs.HandshakeUpdateBreaksEpochs` | lesson07/redis-5.0.10/src/cluster.c:2101-2122 | Two steps after which a configEpoch exceeds currentEpoch, from a table that has a node in handshake under its real name; only an edited nodes.conf gives such a table |
| `ClusterEpochs.BumpTakesFreshEpoch` | lesson07/redis-5.0.10/src/cluster.c:1027-1044 | After any run, a bump gives the node an epoch strictly above everything it knows, or the node already has the greatest one and nothing changes |
| `ClusterEpochs.OnlySmallerNameMoves` | lesson07/redis-5.0.10/src/cluster.c:1092-1107 | One step: of two masters that see each other with one configEpoch, the smaller name takes a fresh epoch and the greater name does nothing |
| `ClusterBus.GetMaxEpoch` | lesson07/redis-5.0.10/src/cluster.c:983-996 | The loop over the nodes finds the greatest epoch known: an upper bound of all of them, and one of them |
| `ClusterCollisions.NoEpochIsAbandoned` | lesson07/redis-5.0.10/src/cluster.c:2020-2027 | While only pings are exchanged, every epoch a master ever used is still the epoch of a master with the same or a greater name |
| `ClusterCollisions.CollisionsEnd` | lesson07/redis-5.0.10/src/cluster.c:1087-1107 | Over every exchange of pings a master uses at most one epoch more than there are masters with greater names, and the greatest name never moves: collisions end |
| `ClusterCollisions.QuietIffDifferent` | lesson07/redis-5.0.10/src/cluster.c:1087-1107 | and they end with different epochs: after any exchange of pings, every continuation, with whatever is in flight, leaves every master's epoch alone if and only if the epochs are pairwise different |
| `ClusterCollisions.DifferentIsReachable` | lesson07/redis-5.0.10/src/cluster.c:1087-1107 | From every state that exchanges of pings reach, some further exchange leads to pairwise different epochs |
| `ClusterCollisions.PingRunKeepsInv` | lesson07/redis-5.0.10/src/cluster.c:2278-2326 | The history invariant behind both is kept by every exchange of pings |
| `SlotBitmap.TestOfSet` | lesson07/redis-5.0.10/src/cluster.c:3664-3682 | Setting or clearing a bit of the bitmap changes exactly that position |
| `SlotBitmap.CountOfSet` | lesson07/redis-5.0.10/src/cluster.c:3702-3731 | and moves the number of set bits by exactly what changed |
| `ClusterSlots.ClusterNode.SetSlotBit` | lesson07/redis-5.0.10/src/cluster.c:3702-3725 | numslots stays the number of set bits; the old bit is returned |
| `ClusterSlots.ClusterNode.ClearSlotBit` | lesson07/redis-5.0.10/src/cluster.c:3727-3732 | numslots stays the number of set bits; the old bit is returned |
| `ClusterSlots.Cluster.AddSlot` | lesson07/redis-5.0.10/src/cluster.c:3743-3748 | Keeps table, bitmaps and counters in agreement; refused exactly when the slot is taken, and then nothing changes |
| `ClusterSlots.Cluster.DelSlot` | lesson07/redis-5.0.10/src/cluster.c:3753-3760 | Keeps the agreement, and the assertion that the owner's bit was set never fails |
| `ClusterSlots.Cluster.DelNodeSlots` | lesson07/redis-5.0.10/src/cluster.c:3764-3774 | Exactly the node's slots become unassigned, and the number returned is its numslots |
| `ClusterSlots.Cluster.DelNode` | lesson07/redis-5.0.10/src/cluster.c:920-947 | Keeps the agreement; no slot, importing slot, migrating slot or replica points to the removed node, and nothing else changes |
| `ClusterSlots.Cluster.Unlink` | lesson07/redis-5.0.10/src/cluster.c:876-898 | Removing a node that owns no slot keeps the agreement and clears exactly its replicas' master |
| `ClusterSlots.Cluster.AddNode` | lesson07/redis-5.0.10/src/cluster.c:901-907 | A new node without slots keeps the agreement |
| `ClusterSlots.Cluster.FailoverReplaceYourMaster` | lesson07/redis-5.0.10/src/cluster.c:2939-2956 | A replica takes exactly its master's slots and becomes a master; a master or a replica without master changes nothing |
| `ClusterSlots.Cluster.SetMaster` | lesson07/redis-5.0.10/src/cluster.c:3970-3986 | Both its assertions suffice for the agreement to be kept when this node becomes a replica |
| `ClusterSlots.Cluster.TakeSlots` | lesson07/redis-5.0.10/src/cluster.c:1576-1613 | Pointwise: a claimed, not importing slot moves exactly when it is free or its owner's epoch is lower; the dirty list is exactly the lost slots with keys, in order |
| `ClusterSlots.Cluster.UpdateSlotsConfigWith` | lesson07/redis-5.0.10/src/cluster.c:1553-1647 | The whole function for every node: slots pointwise, each rebinding strictly raises the owner's epoch, this node follows the sender exactly when its master lost its last slot to it (or fails the assertion of clusterSetMaster, if it is a replica with slots of its own), lost keys are deleted otherwise; a null master is dereferenced exactly when a replica without master sees a free slot claimed |
| `ClusterSlots.ReplicaWithoutMaster` | lesson07/redis-5.0.10/src/cluster.c:1567-1628 | A replica whose line of nodes.conf names no master, and a claim of a free slot: the null master is dereferenced |
| `ClusterSlots.Cluster.ReceiveClaim` | lesson07/redis-5.0.10/src/cluster.c:1950-1976 | A packet of a master, with its recorded epoch and the skipped comparison of equal bitmaps, acts on what the node knows as one claim on the slots it does not import |
| `SlotClaims.GreatestEpochOwns` | lesson07/redis-5.0.10/src/cluster.c:1576-1613 | From any table and after any sequence of claims, several per sender: an uncontested slot belongs to the sender of the greatest live claim |
| `SlotClaims.OrderIndependentIff` | lesson07/redis-5.0.10/src/cluster.c:1576-1613 | The owner of a slot is the same for every order and repetition of the claims if and only if no other claimant of the slot was heard with an epoch that reaches the winner's; and already if it is the same for all orders of the same packets in which each sender's come by increasing epoch |
| `SlotClaims.ContestedSlotsDiverge` | lesson07/redis-5.0.10/src/cluster.c:1593-1594 | The converse made explicit: for every contested slot, two orders of the same packets, each sender's by increasing epoch, that give it to different nodes |
| `SlotClaims.DroppedSlotDiverges` | lesson07/redis-5.0.10/src/cluster.c:1593-1594 | An ordinary input: a master that lost a slot takes a greater epoch for another one; nodes that hear of that before the claim that won the slot leave the slot with the loser, the others do not |
| `SlotClaims.KeptIsUncontested` | lesson07/redis-5.0.10/src/cluster.c:1538-1613 | Slots that claimants keep in their later claims, under epochs they do not share, are uncontested |
| `SlotClaims.Converges` | lesson07/redis-5.0.10/src/cluster.c:1538-1613 | Two nodes that heard the same, their start tables included, in any order and any number of times, agree on every slot that its claimants keep |
| `SlotRanges.PrintRanges` | lesson07/redis-5.0.10/src/cluster.c:4055-4073 | The printed words, read back, are sorted, disjoint and maximal ranges that cover exactly the bitmap, the last slot included |
| `SlotRanges.ParseInvertsWord` | lesson07/redis-5.0.10/src/cluster.c:272-284 | Reading a printed range or slot gives it back |
| `SlotRanges.ParseAnyRange` | lesson07/redis-5.0.10/src/cluster.c:272-284 | Any number, or two with a dash between them in any order, is read if it names slots, and refused otherwise |
| `SlotRanges.ParseAllInvertsWords` | lesson07/redis-5.0.10/src/cluster.c:242-285 | Reading all printed words gives back the ranges |
| `ClusterConfig.AddRange` | lesson07/redis-5.0.10/src/cluster.c:285-285 | Adding a range gives the node exactly the free slots of it; nothing is refused if all are free |
| `ClusterConfig.LoadWords` | lesson07/redis-5.0.10/src/cluster.c:242-286 | A line is accepted exactly if all its words are in range, and gives the node exactly the free slots its words cover |
| `ClusterConfig.SaveAndLoad` | lesson07/redis-5.0.10/src/cluster.c:4055-4073 | Printing the slots of all nodes and loading them into an empty table restores table, bitmaps and counters, and no slot is refused |
| `AofRewriteBuffer.RewriteBuffer.Append` | lesson07/redis-5.0.10/src/aof.c:125-168 | The contents of the blocks grow by exactly the given bytes |
| `AofRewriteBuffer.RewriteBuffer.SendDiff` | lesson07/redis-5.0.10/src/aof.c:95-122 | However many bytes each write takes, what is sent followed by what stays is what was there; a write that is taken sends something, and if all are taken nothing stays |
| `AofRewriteBuffer.RewriteBuffer.WriteTo` | lesson07/redis-5.0.10/src/aof.c:174-194 | It succeeds if and only if every block is taken at once; then the file grows by exactly the contents, otherwise by a prefix of them |
| `AofRewriteBuffer.RewriteBuffer.Size` | lesson07/redis-5.0.10/src/aof.c:79-90 | The sum over the blocks is the length of the contents |
| `AofRewriteBuffer.RewriteBuffer.Reset` | lesson07/redis-5.0.10/src/aof.c:70-76 | The buffer is empty |
| `AofRewrite.RewriteIsExact` | lesson07/redis-5.0.10/src/aof.c:1670-1819 | However parent and child interleave, a rewrite that succeeds installs the snapshot followed by every byte fed since the fork, once each and in order, if and only if the pipe was empty at the moment the answered child stopped reading; otherwise exactly what was in it then is missing |
| `AofRewrite.NothingIsLost` | lesson07/redis-5.0.10/src/aof.c:1486-1507 | At every moment of every run with AOF on, file and buffer are the old log followed by everything fed since the fork; after a success the snapshot followed by it, if and only if the pipe was empty when the child stopped reading |
| `AofRewrite.FinishedHasLastRead` | lesson07/redis-5.0.10/src/aof.c:1436-1448 | A child that finished stopped reading in one step, after the answer; since the parent stopped sending before it answered, the pipe has not changed since |
| `AofRewrite.LastReadIs` | lesson07/redis-5.0.10/src/aof.c:1436-1448 | and that step is where any run in which the child was answered ends its reading, whatever came before and after |
| `AofRewrite.FailedReadLosesBytes` | lesson07/redis-5.0.10/src/aof.c:1287-1297 | An input: a read that fails after the handshake ends the loop, and the rewrite succeeds without the bytes in the pipe |
| `AofRewrite.RewriteSucceeds` | lesson07/redis-5.0.10/src/aof.c:1670-1819 | A run that succeeds: whatever is fed before the handshake and after it ends up in the new file, in order |
| `AofRewriteParent.Parent.Feed` | lesson07/redis-5.0.10/src/aof.c:633-641 | Appending to the blocks is the protocol's step: what the protocol calls pending is what the blocks hold |
| `AofRewriteParent.Parent.SendDiff` | lesson07/redis-5.0.10/src/aof.c:95-122 | However the writes go, sending from the blocks is the step that moves a prefix of the pending bytes into the pipe |
| `AofRewriteParent.Parent.ChildPipeReadable` | lesson07/redis-5.0.10/src/aof.c:1486-1507 | Answering the child is the step after which nothing more is sent |
| `AofRewriteParent.Parent.RewriteDone` | lesson07/redis-5.0.10/src/aof.c:1670-1819 | Writing the blocks to the child's file and renaming it is the protocol's last step; it succeeds if and only if the child finished, every block was taken and the rename worked |
| `AofRewrite.RunKeepsInv` | lesson07/redis-5.0.10/src/aof.c:1381-1470 | Conservation between rewrite buffer, pipe, child and file, and the state of the handshake, are kept by every interleaving |
| `AofFlush.AofWrite` | lesson07/redis-5.0.10/src/aof.c:297-316 | The file grows by exactly the bytes written; an error is reported only if none were |
| `AofFlush.AppendOnlyFile.Flush` | lesson07/redis-5.0.10/src/aof.c:337-516 | The flush, with short writes, failing ftruncate, postponing, fsync and exit, computes FlushSpec and does what FlushWrites says |
| `AofFlush.FlushWrites` | lesson07/redis-5.0.10/src/aof.c:389-516 | A flush that need not wait writes the whole buffer if the kernel takes it, with the fsync of its policy; of a write cut short it exits under always, else keeps file and buffer if ftruncate works, and moves the part written if not; a flush that waits changes nothing |
| `AofFlush.WritesWhatIsOffered` | lesson07/redis-5.0.10/src/aof.c:297-316 | Retrying short and interrupted writes puts as many bytes into the file as the kernel takes before an error |
| `AofFlush.FlushConserves` | lesson07/redis-5.0.10/src/aof.c:389-489 | A flush that returns keeps file + buffer and the recorded size; one that exits leaves a prefix of the log that extends the old file |
| `AofFlush.RunConserves` | lesson07/redis-5.0.10/src/aof.c:633-634 | Over every run of feeds and flushes, file followed by buffer is the old file followed by everything fed, and aof_current_size is the length of the file |
| `AofFlush.WaitsLessThanTwoSeconds` | lesson07/redis-5.0.10/src/aof.c:355-388 | One step: a flush with something to write that does not write has been postponed for less than two seconds |
| `AofFlush.PostponingEnds` | lesson07/redis-5.0.10/src/aof.c:355-388 | Over every run of feeds and flushes in which no flush writes, the first and the last flush are less than two seconds apart |
| `AofFormat.CatGenericCommand` | lesson07/redis-5.0.10/src/aof.c:518-541 | The loop appends the encoding of the command, for arbitrary bytes |
| `AofFormat.ReadInvertsPrint` | lesson07/redis-5.0.10/src/aof.c:752-812 | Reading an encoded command gives it back and leaves what follows, for every binary command of representable size |
| `AofFormat.ReadCut` | lesson07/redis-5.0.10/src/aof.c:752-812 | Reading a proper prefix of an encoded command reports the end of the file, never another command or a format error |
| `AofLoad.ReadNext` | lesson07/redis-5.0.10/src/aof.c:764-812 | The reader with its loop over the arguments computes ReadCommand, the function the round trip is about |
| `AofLoad.LoadAppendOnlyFile` | lesson07/redis-5.0.10/src/aof.c:698-910 | The loading loop computes Load on every file, truncated, malformed or with transactions |
| `AofLoad.LoadInvertsPrint` | lesson07/redis-5.0.10/src/aof.c:752-847 | Loading a printed log executes exactly its commands, those of transactions included, and keeps the whole file, if and only if no transaction is nested or left open |
| `AofLoad.LoadKeepsWholeCommands` | lesson07/redis-5.0.10/src/aof.c:870-889 | On any byte prefix of a log without transactions exactly the longest prefix of whole commands is executed and kept |
| `AofLoad.LoadPrefix` | lesson07/redis-5.0.10/src/aof.c:820-889 | The same with transactions: the whole commands are replayed, and the file is cut after the last of them, or before a transaction left open at the end |
| `AofLoad.AppendAfterTruncation` | lesson07/redis-5.0.10/src/aof.c:823-889 | Commands appended after a truncated load survive the next load if and only if the file was not cut inside a command of an open transaction |
| `AofLoad.MultiSwallowsAppended` | lesson07/redis-5.0.10/src/aof.c:823-889 | An input: MULTI, a SET cut after its first byte, and a SET appended later, which the next load does not execute |
| `AofTails.LoadEitherWay` | lesson07/redis-5.0.10/src/aof.c:823-863 | With aof-load-truncated on or off, a log of whole commands is executed and kept if and only if no transaction is nested or left open |
| `AofTails.StrictLoad` | lesson07/redis-5.0.10/src/aof.c:852-863 | With it off, a whole log is executed and kept, or is a fatal error if it ends inside a transaction |
| `AofTails.StrictCut` | lesson07/redis-5.0.10/src/aof.c:878-903 | With it off, every cut inside a command is a fatal error |
| `AofTails.NoStarIsFatal` | lesson07/redis-5.0.10/src/aof.c:772-772 | After any log, a byte that is not a star is a format error, under both settings |
| `AofTails.UnknownIsFatal` | lesson07/redis-5.0.10/src/aof.c:814-821 | After any log, a command that is not in the table is fatal |
| `AofTails.NoArgumentsIsFatal` | lesson07/redis-5.0.10/src/aof.c:774-775 | After any log, an argument count of zero or no number is a format error |
| `AofTails.NoDollarIsFatal` | lesson07/redis-5.0.10/src/aof.c:783-793 | After any log, an argument without its dollar sign is a format error |
| `AofTails.NegativeLengthIsFatal` | lesson07/redis-5.0.10/src/aof.c:794-798 | After any log, a negative length is taken for a huge one and cannot be allocated |
| `AofTails.SetIsEncoded` | lesson07/redis-5.0.10/src/aof.c:518-541 | The bytes of SET k v, one by one |
| `AofTails.TransactionBytes` | lesson07/redis-5.0.10/src/aof.c:823-847 | MULTI, SET k v and EXEC, given byte by byte, execute the SET under both settings |
| `AofFeed.Feeder.Feed` | lesson07/redis-5.0.10/src/aof.c:580-628 | The bytes produced are the command alone if its database is selected, and otherwise SELECT with the number of the database and the command |
| `AofFeed.LogReplays` | lesson07/redis-5.0.10/src/aof.c:584-594 | For every history of databases and forks, the commands of the log execute every command fed in its own database |
| `AofFeed.RewriteReplays` | lesson07/redis-5.0.10/src/aof.c:1618-1622 | Since a fork forces a SELECT, a snapshot that ends in any database followed by the differences replays both correctly |
| `AofFeed.Feeder.StartRewrite` | lesson07/redis-5.0.10/src/aof.c:1618-1622 | After a fork no database is taken as selected |
| `AofFeed.FeedHistory` | lesson07/redis-5.0.10/src/aof.c:580-628 | The bytes fed over a whole history are the encoding of its log |
| `AofFeed.FileReplays` | lesson07/redis-5.0.10/src/aof.c:764-850 | On bytes: loading a file made of a snapshot and what was fed since executes both, each command in its own database, if and only if the history leaves no transaction open or nested |
| `Decimal.StrtolInvertsDigits` | lesson07/redis-5.0.10/src/aof.c:518-541 | A printed number is read back, whatever follows it that is not a digit |
| `BlockedServer.Server.BlockForKeys` | lesson07/redis-5.0.10/src/blocked.c:522-563 | The index stays valid; the client and only the client is blocked, last in the list of exactly the given keys, once each, a repeated key keeping its first ID |
| `BlockedServer.Server.UnblockClient` | lesson07/redis-5.0.10/src/blocked.c:567-599 | Removing the client key by key finds every list and computes Unblock |
| `BlockedIndex.UnblockKeepsValid` | lesson07/redis-5.0.10/src/blocked.c:177-196 | Unblocking keeps the two-way index, the flags, all counters and the unblocked list, and touches no other client |
| `BlockedServer.Server.SignalKeyAsReady` | lesson07/redis-5.0.10/src/blocked.c:610-633 | A key is queued exactly if somebody waits for it and it is not queued already |
| `BlockedIndex.SignalKeepsReady` | lesson07/redis-5.0.10/src/blocked.c:610-633 | Every ready key is queued once, also while a list of keys is being served |
| `BlockedIndex.SignalKeepsValid` | lesson07/redis-5.0.10/src/blocked.c:610-633 | Signalling does not disturb the index |
| `BlockedIndex.RotateKeepsValid` | lesson07/redis-5.0.10/src/blocked.c:306-311 | Rotating a list of waiting clients keeps the index |
| `BlockedServing.HeadIsNext` | lesson07/redis-5.0.10/src/blocked.c:302-304 | The loops always find a head: it is the next client in the original order, untouched so far and still blocked |
| `BlockedServer.Server.ServeClientBlockedOnList` | lesson07/redis-5.0.10/src/t_list.c:628-683 | Fails exactly when the destination holds something else, and then only a reply is added; otherwise pops or moves |
| `BlockedServer.Server.ServeList` | lesson07/redis-5.0.10/src/blocked.c:292-349 | Clients waiting for a list are answered first to last, each once, with the items that their turns give them; the others are rotated; list items are conserved; the key is deleted if emptied; nobody it could serve is left waiting |
| `BlockedServer.Server.ServeHeadOfList` | lesson07/redis-5.0.10/src/blocked.c:313-336 | One turn: the client takes the first item or the last, and keeps it or has it put in front of its target, which becomes ready if it was missing; a target that is no list leaves the keyspace as it was |
| `BlockedTurns.BlpopTakesFirst` | lesson07/redis-5.0.10/src/blocked.c:313-317 | So many BLPOP clients get the first items, in order, and the rest stays |
| `BlockedTurns.BrpopTakesLast` | lesson07/redis-5.0.10/src/blocked.c:313-317 | So many BRPOP clients get the last items, the last first, and the rest stays |
| `BlockedTurns.BrpoplpushMovesLast` | lesson07/redis-5.0.10/src/t_list.c:628-683 | So many BRPOPLPUSH clients move the last items, in their order, to the front of the other list, and no other key changes |
| `BlockedServer.Server.ServeZSet` | lesson07/redis-5.0.10/src/blocked.c:352-395 | The same for sorted sets: each client served takes one member, the key goes with the last one, and no other key changes |
| `BlockedServer.Server.ServeStream` | lesson07/redis-5.0.10/src/blocked.c:398-483 | Every waiting client either stays or is answered, in order, and only if the stream has what it waits for or it reads through a consumer group; removals do not disturb the iteration |
| `BlockedServer.Server.ServeKey` | lesson07/redis-5.0.10/src/blocked.c:276-484 | Serving a key blocks nobody, and makes keys ready only if fewer clients are blocked |
| `BlockedServer.Server.HandleClientsBlockedOnKeys` | lesson07/redis-5.0.10/src/blocked.c:261-493 | Terminates by blocked clients, then ready keys; the keys that were ready are served in order, each as its type asks and from where the one before left off, and then those that became ready; no ready key is left, no client became blocked, list items are conserved, and, if every servable client waited for a ready key before, nobody is left waiting for a key that could serve them |
| `BlockedServer.Server.TakeUnblocked` | lesson07/redis-5.0.10/src/blocked.c:127-148 | The UNBLOCKED flag keeps saying who is in the list |
| `BlockedFairness.PushKeepsFair` | lesson07/redis-5.0.10/src/db.c:173-182 | Pushing to a list, which signals only when the key is new, leaves every servable client waiting for a ready key |
| `BlockedWaits.BlockingKeepsFair` | lesson07/redis-5.0.10/src/blocked.c:522-563 | and so does blocking on keys that cannot serve the client |
| `BlockedWaits.AddKeysWaits` | lesson07/redis-5.0.10/src/blocked.c:531-561 | The loop over the keys puts the client into exactly the lists of those keys |
| `Popcount.RedisPopcount` | lesson07/redis-5.0.10/src/bitops.c:40-92 | For every string and every address the result is the number of ones counted bit by bit |
| `Popcount.SevenWordsCount` | lesson07/redis-5.0.10/src/bitops.c:66-86 | The arithmetic on seven 32-bit words gives the number of their ones |
| `Popcount.CountPairs` | lesson07/redis-5.0.10/src/bitops.c:66-66 | Subtracting the high bits leaves the ones of every pair, without borrow |
| `Popcount.CountNibbles` | lesson07/redis-5.0.10/src/bitops.c:67-67 | Adding pairs gives the ones of every nibble, without carry |
| `Popcount.CountBytes` | lesson07/redis-5.0.10/src/bitops.c:80-86 | Adding nibbles gives the ones of every byte, each at most 8 |
| `Popcount.MultiplyAddsBytes` | lesson07/redis-5.0.10/src/bitops.c:80-86 | Bytes that sum to at most 224 are added up in the top byte by the multiplication modulo 2^32 |
| `BitString.ByteOnesCount` | lesson07/redis-5.0.10/src/bitops.c:48-52 | Adding the ones of the bytes counts the string bit by bit |
| `Bitpos.RedisBitpos` | lesson07/redis-5.0.10/src/bitops.c:101-186 | For every string and address: the least matching position of the zero-padded string, or -1 exactly when a 1 is sought and there is none; the end is not reached |
| `Bitpos.Skip` | lesson07/redis-5.0.10/src/bitops.c:121-144 | Skipping bytes up to alignment and then words passes no matching bit, and stops at one or with fewer than eight bytes left |
| `Bitpos.LoadWord` | lesson07/redis-5.0.10/src/bitops.c:151-159 | Loading shifts nothing out and gives the next bytes, big-endian and zero padded |
| `Bitpos.Scan` | lesson07/redis-5.0.10/src/bitops.c:170-185 | Scanning the word finds the first matching bit; the panic is unreachable |
| `BitfieldStore.SetUnsignedBitfield` | lesson07/redis-5.0.10/src/bitops.c:209-222 | The loop over the bits writes Stored in place |
| `BitfieldStore.GetUnsignedBitfield` | lesson07/redis-5.0.10/src/bitops.c:229-241 | The loop over the bits reads Field |
| `BitfieldStore.FieldOfStored` | lesson07/redis-5.0.10/src/bitops.c:209-241 | Reading back what was stored gives its low bits |
| `BitfieldStore.StoredOutside` | lesson07/redis-5.0.10/src/bitops.c:209-222 | No bit outside the field changes |
| `BitfieldOverflow.UnsignedBounded` | lesson07/redis-5.0.10/src/bitops.c:288-323 | For u1 to u63: overflow is reported exactly when the sum does not fit, and the limit is the residue or the bound it passed |
| `BitfieldOverflow.SignedBounded` | lesson07/redis-5.0.10/src/bitops.c:325-374 | For i1 to i63: the same, if and only if it is not saturation of a value so far below the range that max - value overflows; then the highest value is stored |
| `BitfieldOverflow.WrapSignedMeaning` | lesson07/redis-5.0.10/src/bitops.c:357-373 | Sign extension of the unsigned sum is the residue in two's complement |
| `Bitfield.NewValueIsBounded` | lesson07/redis-5.0.10/src/bitops.c:1014-1090 | An operation stores the wanted number, its residue, the bound it passed, or nothing, exactly unless it sets a signed field far below its range under saturation |
| `Bitfield.GetAfterSet` | lesson07/redis-5.0.10/src/bitops.c:1040-1090 | SET replies the old number, and a later GET returns the number given if it fits, else its residue or the bound it passed, or nothing is stored under FAIL; with the exact exception of numbers far below a signed field under saturation |
| `Bitfield.SetFarBelowStoresHighest` | lesson07/redis-5.0.10/src/bitops.c:325-345 | SET i8 of the smallest 64-bit number under SAT stores 127 instead of -128 |
| `Bitfield.GetAfterIncrBy` | lesson07/redis-5.0.10/src/bitops.c:1014-1122 | INCRBY replies with the sum if it fits, else residue or bound, or nothing under FAIL, and a later GET of the field returns that reply |
| `Bitfield.OthersUntouched` | lesson07/redis-5.0.10/src/bitops.c:1049-1086 | A GET or a failed operation changes nothing; no other bit changes |
| `Bitfield.FieldsApart` | lesson07/redis-5.0.10/src/bitops.c:1014-1090 | Numbers in fields apart from the written one stay the same |
| `Bitfield.GetSignedBitfield` | lesson07/redis-5.0.10/src/bitops.c:243-263 | The sign bit is extended to the two's complement value |
| `Bitfield.GetThroughWindow` | lesson07/redis-5.0.10/src/bitops.c:1093-1121 | Reading through nine zero-padded bytes equals reading the zero-padded string at the offset |
| `Bitfield.Execute` | lesson07/redis-5.0.10/src/bitops.c:1014-1122 | One operation of the loop computes Apply in place |
| `Bitfield.BitfieldCommand` | lesson07/redis-5.0.10/src/bitops.c:1014-1122 | The loop computes all operations in order |
| `Adlist.List.constructor` | lesson07/redis-5.0.10/src/adlist.c:41-53 | A new list is empty |
| `Adlist.List.Empty` | lesson07/redis-5.0.10/src/adlist.c:56-71 | Walking len nodes ends exactly at the end; the list is empty |
| `Adlist.List.AddNodeHead` | lesson07/redis-5.0.10/src/adlist.c:88-106 | Links stay inverse and len exact; a new node in front of the old sequence |
| `Adlist.List.AddNodeTail` | lesson07/redis-5.0.10/src/adlist.c:114-132 | A new node after the old sequence |
| `Adlist.List.InsertNode` | lesson07/redis-5.0.10/src/adlist.c:134-161 | A new node before or after the given one, and nothing else moves |
| `Adlist.List.DelNode` | lesson07/redis-5.0.10/src/adlist.c:167-180 | The sequence without that node, which keeps its own links |
| `Adlist.Iter.constructor` | lesson07/redis-5.0.10/src/adlist.c:186-213 | The iterator is on the first or the last node |
| `Adlist.Iter.Next` | lesson07/redis-5.0.10/src/adlist.c:229-240 | Returns the node it is on and moves one further in its direction |
| `Adlist.Iter.DelCurrent` | lesson07/redis-5.0.10/src/adlist.c:216-217 | Deleting the node just returned leaves the iterator on exactly the remaining nodes, in both directions |
| `Adlist.DeleteWhileIterating` | lesson07/redis-5.0.10/src/adlist.c:216-228 | The usual loop with deletions visits every node once and removes exactly the matching ones |
| `Adlist.Dup` | lesson07/redis-5.0.10/src/adlist.c:250-280 | The copy has the copied values in order and shares no node; null exactly if copying a value fails; the original is not modified |
| `Adlist.SearchKey` | lesson07/redis-5.0.10/src/adlist.c:290-308 | The first matching node, or null if none matches |
| `Adlist.List.Index` | lesson07/redis-5.0.10/src/adlist.c:315-327 | Negative indices count from the tail; null out of range |
| `Adlist.List.RotateTailToHead` | lesson07/redis-5.0.10/src/adlist.c:330-342 | The last node becomes the first |
| `Adlist.List.RotateHeadToTail` | lesson07/redis-5.0.10/src/adlist.c:345-357 | The first node becomes the last |
| `Adlist.List.Join` | lesson07/redis-5.0.10/src/adlist.c:361-376 | The two sequences one after the other; the other list is empty and valid |
| `EventLoop.AeEventLoop.CreateFileEvent` | lesson07/redis-5.0.10/src/ae.c:136-154 | On failure nothing changes; on success maxfd, table and kernel stay in agreement, if and only if something is registered for the descriptor (or select is told nothing new below maxfd) |
| `EventLoop.RegisterNothing` | lesson07/redis-5.0.10/src/ae.c:136-154 | An input: registering an empty mask for an unused descriptor, after which maxfd names it, the kernel watches it and the table says it is not in use |
| `EventLoop.AeEventLoop.DeleteFileEvent` | lesson07/redis-5.0.10/src/ae.c:156-176 | maxfd stays the greatest descriptor in use or -1, the barrier goes with the write event, and the kernel agrees if it did not fail |
| `EventLoop.AeEventLoop.LowerMaxfd` | lesson07/redis-5.0.10/src/ae.c:168-175 | The search downwards finds the greatest descriptor in use, or -1 |
| `EventLoop.AeEventLoop.ResizeSetSize` | lesson07/redis-5.0.10/src/ae.c:107-123 | Refused exactly if a descriptor in use would be cut off or select has no room; otherwise every mask is kept and new slots are empty |
| `EventLoop.AddAgrees` | lesson07/redis-5.0.10/src/ae_epoll.c:73-88 | ADD and MOD are chosen as the kernel needs, so a call fails only if the kernel does; interest is the read and write part of the mask |
| `EventLoop.DelAgrees` | lesson07/redis-5.0.10/src/ae_epoll.c:90-106 | After a deletion the kernel watches exactly what is left, for epoll and for select |
| `EventLoop.RaiseMax` | lesson07/redis-5.0.10/src/ae.c:151-152 | maxfd after registering is the greatest descriptor in use unless nothing was registered above it |
| `ThreadPool.PoolIsSafe` | webServer/threadPool.h:81-121 | For any number of threads and every interleaving of their statements: the empty branch is never taken, front and pop_front never find the queue empty, the mutex is held by one thread, and the queue has at most maxRequests + 1 requests |
| `ThreadPool.PoolIsFifo` | webServer/threadPool.h:89-114 | Requests leave in the order they came; a worker that read the front has, after its pop_front, the request of that very position; and no position is in two hands or taken again |
| `ThreadPool.NoLostWakeup` | webServer/threadPool.h:90-106 | When every append returned and every worker waits, the semaphore counts the queue and everything taken was processed |
| `ThreadPool.RunKeepsInv` | webServer/threadPool.h:81-121 | The queue length is the semaphore's value plus workers between wait and pop plus appenders between push and post, in every reachable state |
| `ThreadPool.RequestIsAccepted` | webServer/threadPool.h:81-92 | A request that finds at most maxRequests queued is the next one accepted, whatever the other threads do meanwhile |
| `ThreadPool.ExitsOnlyAfterStop` | webServer/threadPool.h:101-103 | A worker ends only after the pool was told to stop |
| `ThreadPool.AppenderQueues` | webServer/threadPool.h:81-92 | An append that meets no other thread queues its request and posts once |
| `ThreadPool.WorkerProcesses` | webServer/threadPool.h:102-121 | A worker that is woken and meets no other thread takes the oldest request and processes it |
| `ThreadPool.NothingIsStuck` | webServer/threadPool.h:90-121 | In every reachable state at rest with requests queued, each waiting worker can process the oldest one by itself |
| `BoundedBuffer.BufferIsSafe` | lesson30/semaphore.c:57-99 | For any number of producers and customers and every interleaving of their accesses to memory: no null, dangling or freed pointer is used, no unassigned number is printed, one thread at a time is in its critical section, and following head visits at most eight different nodes and ends |
| `BoundedBuffer.BufferConserves` | lesson30/semaphore.c:57-99 | Every number assigned is printed once or still in memory, and while the mutex is free the list is all the memory in use: nothing is lost, duplicated or leaked |
| `BoundedBuffer.ProducerAdds` | lesson30/semaphore.c:57-77 | A producer that meets no other thread puts a node with its number in front and announces it |
| `BoundedBuffer.CustomerRemoves` | lesson30/semaphore.c:80-99 | A customer that meets no other thread prints the number at the head, frees that node and leaves the next as the head |
| `BoundedBuffer.RunKeepsInv` | lesson30/semaphore.c:57-99 | Nodes, free places and threads between wait and post always add up to eight, and what the thread in its critical section read of head is still so |

## Left out

- Cluster: sockets, the packets of a handshake, gossip, failure detection, replica migration and manual failover
  timers; they appear as actions that may happen at any time. A voter's checks of clocks, failure flags and slot owners
  are arbitrary answers.
- ClusterElectionRuns.ElectionSafety: assumes that both winners take their quorum over the same set of masters, as the
  design does, and that elections start with a zero count; `AgreedTablesAreSafe` has the first from the winners' own
  tables. CLUSTER RESET and loss of the saved configuration are not modelled.
- ClusterPackets.HandshakeEnds: takes random names to differ from real ones, as the source does.
- ClusterEpochs.EpochInvariant: starts from tables with no entry in handshake under the name of a node, as saving the
  configuration leaves them; an edited nodes.conf is the one exception.
- ClusterCollisions.CollisionsEnd: is about exchanges of pings between masters only.
- ClusterCollisions.QuietIffDifferent: is about masters that know each other and exchange pings only.
- SlotClaims: claims in UPDATE packets, which are dropped unless their epoch is above the recorded one.
- The bus model has no slots and the slot model no messages; `ReceiveClaim` and `SlotClaims` are the link between them.
- ClusterSlots: the arrays of replicas of a node and the MIGRATE_TO flag.
- ClusterConfig: splitting a line into words, node addresses and flags.
- ClusterConfig.LoadWords: does not read the migrating and importing marks that follow the slots of a node's own line.
- Aof: fsync itself, latency monitoring, logging and process exit codes; RDB preambles; numbers outside the range
  of a long.
- AofFeed.Feeder.Feed: is about commands that are logged as given; EXPIRE, SETEX and SET with options, which are
  translated into PEXPIREAT with the time of the clock, are not modelled.
- AofLoad.AppendAfterTruncation: assumes that MULTI is not nested, which the server refuses, and that the commands
  appended later are not transactions.
- AofRewrite: what the child writes as its snapshot is arbitrary bytes; that it describes the data set is not modelled.
- Blocked: clients are entries of a table rather than heap objects, lists of waiting clients are sequences with numbered
  nodes; WAIT and module clients, timeouts, replication of the pops and keyspace events are not modelled.
- BlockedServer.Server.ServeStream: the state of consumer groups is not modelled; looking up a group gives an arbitrary
  answer.
- Popcount: the table of the ones of a byte is taken to hold them; words are read little-endian.
- Bitfield: fields of 64 bits, for which the code shifts by the width of the type, parsing of the arguments, and growing
  the string.
- Adlist: memory allocation and the release of values; functions to copy and compare values are total functions.
- EventLoop: handlers and client data, time events, polling, the evport and kqueue backends, and negative descriptors.
- ThreadPool: construction and destruction of the pool; a call of the standard list and the processing of a request are
  one step each, and a null request, which is skipped, counts as processed.
- BoundedBuffer: `malloc` is taken not to fail, and memory to be sequentially consistent.
- ThreadPool, BoundedBuffer: `sem_wait` is taken never to fail; both programs ignore its result
  (webServer/locker.cpp:63), so a wait that is interrupted would let a thread pass without a post.
- crc16, crc64, the network code, the web server's HTTP parsing and the remaining lessons.
