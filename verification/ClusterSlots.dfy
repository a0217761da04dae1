/**
 Who serves which slot: the table of the cluster points to nodes, and every node has a bitmap and a counter.
 Three representations of one relation that every operation has to keep in agreement.
 */
module ClusterSlots {
  import opened Prelude
  import opened Bits
  import opened SlotBitmap
  import opened SlotClaims

  class ClusterNode {
    var bitmap: Bitmap                 // slots
    var numSlots: int
    var configEpoch: nat
    var isMaster: bool
    var slaveOf: ClusterNode?

    constructor (isMaster: bool, configEpoch: nat)
      ensures bitmap == EMPTY && numSlots == 0 && slaveOf == null && this.isMaster == isMaster
      ensures this.configEpoch == configEpoch
    {
      this.bitmap := EMPTY;
      this.numSlots := 0;
      this.configEpoch := configEpoch;
      this.isMaster := isMaster;
      this.slaveOf := null;
    }

    /** clusterNodeSetSlotBit; the old value is returned. */
    method SetSlotBit(slot: nat) returns (was: bool)
      requires slot < CLUSTER_SLOTS && numSlots == Count(bitmap, CLUSTER_SLOTS)
      modifies `bitmap, `numSlots
      ensures was == TestBit(old(bitmap), slot) && numSlots == Count(bitmap, CLUSTER_SLOTS)
      ensures forall j :: 0 <= j < CLUSTER_SLOTS ==> TestBit(bitmap, j) == (j == slot || TestBit(old(bitmap), j))
    {
      was := TestBit(bitmap, slot);
      SetBitEffect(bitmap, slot, true);
      bitmap := SetBit(bitmap, slot, true);
      if !was { numSlots := numSlots + 1; }
    }

    /** clusterNodeClearSlotBit; the old value is returned. */
    method ClearSlotBit(slot: nat) returns (was: bool)
      requires slot < CLUSTER_SLOTS && numSlots == Count(bitmap, CLUSTER_SLOTS)
      modifies `bitmap, `numSlots
      ensures was == TestBit(old(bitmap), slot) && numSlots == Count(bitmap, CLUSTER_SLOTS)
      ensures forall j :: 0 <= j < CLUSTER_SLOTS ==> TestBit(bitmap, j) == (j != slot && TestBit(old(bitmap), j))
    {
      was := TestBit(bitmap, slot);
      SetBitEffect(bitmap, slot, false);
      bitmap := SetBit(bitmap, slot, false);
      if was { numSlots := numSlots - 1; }
    }
  }

  lemma SetBitEffect(b: Bitmap, slot: nat, v: bool)
    requires slot < CLUSTER_SLOTS
    ensures forall j :: 0 <= j < CLUSTER_SLOTS ==>
      TestBit(SetBit(b, slot, v), j) == if j == slot then v else TestBit(b, j)
    ensures Count(SetBit(b, slot, v), CLUSTER_SLOTS) == Count(b, CLUSTER_SLOTS) + B(v) - B(TestBit(b, slot))
  {
    forall j | 0 <= j < CLUSTER_SLOTS
      ensures TestBit(SetBit(b, slot, v), j) == if j == slot then v else TestBit(b, j)
    {
      TestOfSet(b, slot, v, j);
    }
    CountOfSet(b, slot, v, CLUSTER_SLOTS);
  }

  /** What became of a configuration received from another node. */
  datatype Outcome =
    | Discarded                        // it was about this node
    | SlotsOnly                        // only the slots were updated
    | Replicate                        // this node now replicates the sender
    | KeysDeleted(dirty: seq<nat>)     // keys of lost slots were deleted
    | NullMaster                       // the number of slots of no master at all is read
    | AssertionFailed                  // this node is a replica that has slots of its own

  class Cluster {
    var nodes: set<ClusterNode>
    var myself: ClusterNode
    var slots: seq<ClusterNode?>
    var importing: seq<ClusterNode?>   // importing_slots_from
    var migrating: seq<ClusterNode?>   // migrating_slots_to
    var keys: seq<nat>                 // slots_keys_count

    /** The node's bitmap and counter are what the table says. */
    ghost predicate NodeOk(n: ClusterNode)
      reads this`slots, n`bitmap, n`numSlots
    {
      && |slots| == CLUSTER_SLOTS
      && n.numSlots == Count(n.bitmap, CLUSTER_SLOTS)
      && forall j :: 0 <= j < CLUSTER_SLOTS ==> (TestBit(n.bitmap, j) <==> slots[j] == n)
    }

    ghost predicate Valid()
      reads this, nodes
    {
      && |slots| == CLUSTER_SLOTS && |importing| == CLUSTER_SLOTS && |migrating| == CLUSTER_SLOTS
        && |keys| == CLUSTER_SLOTS
      && myself in nodes
      && (forall j :: 0 <= j < CLUSTER_SLOTS && slots[j] != null ==> slots[j] in nodes)
      && (forall n <- nodes :: NodeOk(n))
    }

    /** No pointer leads to a node that was removed. */
    ghost predicate Linked()
      reads this, nodes
    {
      && (forall j :: 0 <= j < |importing| && importing[j] != null ==> importing[j] in nodes)
      && (forall j :: 0 <= j < |migrating| && migrating[j] != null ==> migrating[j] in nodes)
      && (forall n <- nodes :: n.slaveOf != null ==> n.slaveOf in nodes)
    }

    constructor (me: ClusterNode)
      requires me.bitmap == EMPTY && me.numSlots == 0 && me.slaveOf == null
      ensures Valid() && Linked() && nodes == {me} && myself == me
      ensures forall j :: 0 <= j < CLUSTER_SLOTS ==> slots[j] == null && importing[j] == null
    {
      nodes := {me};
      myself := me;
      slots := seq(CLUSTER_SLOTS, _ => null);
      importing := seq(CLUSTER_SLOTS, _ => null);
      migrating := seq(CLUSTER_SLOTS, _ => null);
      keys := seq(CLUSTER_SLOTS, _ => 0);
      EmptyNode();
    }

    /** clusterAddNode, for a node of a new name. */
    method AddNode(n: ClusterNode)
      requires Valid() && Linked() && n !in nodes
      requires n.bitmap == EMPTY && n.numSlots == 0 && n.slaveOf == null
      modifies `nodes
      ensures Valid() && Linked() && nodes == old(nodes) + {n}
    {
      EmptyNode();
      nodes := nodes + {n};
    }

    /** clusterAddSlot: refused if the slot is taken. */
    method AddSlot(n: ClusterNode, slot: nat) returns (ok: bool)
      requires Valid() && n in nodes && slot < CLUSTER_SLOTS
      modifies `slots, n`bitmap, n`numSlots
      ensures Valid() && ok == (old(slots)[slot] == null)
      ensures slots == if ok then old(slots)[slot := n] else old(slots)
    {
      if slots[slot] != null { return false; }
      assert NodeOk(n);
      var _ := n.SetSlotBit(slot);
      slots := slots[slot := n];
      return true;
    }

    /** clusterDelSlot: the assertion that the owner's bit was set holds. */
    method DelSlot(slot: nat) returns (ok: bool)
      requires Valid() && slot < CLUSTER_SLOTS
      modifies `slots, nodes`bitmap, nodes`numSlots
      ensures Valid() && ok == (old(slots)[slot] != null)
      ensures slots == old(slots)[slot := null]
      ensures forall n <- nodes :: n != old(slots)[slot] ==> n.bitmap == old(n.bitmap) && n.numSlots == old(n.numSlots)
    {
      var n := slots[slot];
      if n == null { return false; }
      assert NodeOk(n);
      var was := n.ClearSlotBit(slot);
      assert was;
      slots := slots[slot := null];
      return true;
    }

    /** clusterDelSlot followed by clusterAddSlot, which is never refused. */
    method MoveSlot(n: ClusterNode, slot: nat)
      requires Valid() && n in nodes && slot < CLUSTER_SLOTS
      modifies `slots, nodes`bitmap, nodes`numSlots
      ensures Valid() && slots == old(slots)[slot := n]
    {
      var _ := DelSlot(slot);
      var ok := AddSlot(n, slot);
      assert ok;
      assert slots == old(slots)[slot := n];
    }

    /** clusterDelNodeSlots: exactly the node's slots become unassigned, and they are counted. */
    method DelNodeSlots(n: ClusterNode) returns (deleted: nat)
      requires Valid() && n in nodes
      modifies `slots, nodes`bitmap, nodes`numSlots
      ensures Valid() && deleted == old(n.numSlots)
      ensures forall j :: 0 <= j < CLUSTER_SLOTS ==> slots[j] == if old(slots)[j] == n then null else old(slots)[j]
    {
      deleted := 0;
      assert NodeOk(n);
      for j := 0 to CLUSTER_SLOTS
        invariant Valid() && deleted == Count(old(n.bitmap), j)
        invariant forall i :: 0 <= i < CLUSTER_SLOTS ==>
          slots[i] == if i < j && old(slots)[i] == n then null else old(slots)[i]
      {
        assert NodeOk(n);
        assert TestBit(old(n.bitmap), j) <==> old(slots)[j] == n by { assert old(NodeOk(n)); }
        if TestBit(n.bitmap, j) {
          var _ := DelSlot(j);
          deleted := deleted + 1;
        }
      }
    }

    /** clusterDelNode: nothing points to the node afterwards. */
    method DelNode(n: ClusterNode)
      requires Valid() && Linked() && n in nodes && n != myself
      modifies this, nodes
      ensures Valid() && Linked() && nodes == old(nodes) - {n} && myself == old(myself)
      ensures forall j :: 0 <= j < CLUSTER_SLOTS ==> slots[j] == if old(slots)[j] == n then null else old(slots)[j]
      ensures forall j :: 0 <= j < CLUSTER_SLOTS ==>
        importing[j] == if old(importing)[j] == n then null else old(importing)[j]
      ensures forall j :: 0 <= j < CLUSTER_SLOTS ==>
        migrating[j] == if old(migrating)[j] == n then null else old(migrating)[j]
      ensures forall m <- nodes :: m.slaveOf == if old(m.slaveOf) == n then null else old(m.slaveOf)
    {
      hide NodeOk, TestBit;
      for j := 0 to CLUSTER_SLOTS
        modifies `slots, `importing, `migrating, nodes`bitmap, nodes`numSlots
        invariant Valid() && nodes == old(nodes)
        invariant forall i :: 0 <= i < CLUSTER_SLOTS ==>
          slots[i] == if i < j && old(slots)[i] == n then null else old(slots)[i]
        invariant forall i :: 0 <= i < CLUSTER_SLOTS ==>
          importing[i] == if i < j && old(importing)[i] == n then null else old(importing)[i]
        invariant forall i :: 0 <= i < CLUSTER_SLOTS ==>
          migrating[i] == if i < j && old(migrating)[i] == n then null else old(migrating)[i]
      {
        if importing[j] == n { importing := importing[j := null]; }
        if migrating[j] == n { migrating := migrating[j := null]; }
        if slots[j] == n { var _ := DelSlot(j); }
      }
      Unlink(n);
    }

    /** freeClusterNode: the replicas of the node lose their master, and the node leaves the table of nodes. */
    method Unlink(n: ClusterNode)
      requires Valid() && n in nodes && n != myself && (forall j :: 0 <= j < CLUSTER_SLOTS ==> slots[j] != n)
      modifies `nodes, nodes`slaveOf
      ensures Valid() && nodes == old(nodes) - {n}
      ensures forall m <- nodes :: m.slaveOf == if old(m.slaveOf) == n then null else old(m.slaveOf)
    {
      forall m <- nodes | m.slaveOf == n { m.slaveOf := null; }
      nodes := nodes - {n};
    }

    /** clusterFailoverReplaceYourMaster: a replica becomes a master and takes exactly its master's slots. */
    method FailoverReplaceYourMaster()
      requires Valid() && Linked()
      modifies `slots, nodes`bitmap, nodes`numSlots, myself`isMaster, myself`slaveOf
      ensures Valid() && Linked()
      ensures
        if old(myself.isMaster) || old(myself.slaveOf) == null then
          slots == old(slots) && myself.isMaster == old(myself.isMaster) && myself.slaveOf == old(myself.slaveOf)
        else
          && myself.isMaster && myself.slaveOf == null
          && forall j :: 0 <= j < CLUSTER_SLOTS ==>
            slots[j] == if old(slots)[j] == old(myself.slaveOf) then myself else old(slots)[j]
    {
      var oldMaster := myself.slaveOf;
      if myself.isMaster || oldMaster == null { return; }
      myself.isMaster := true;
      myself.slaveOf := null;
      for j := 0 to CLUSTER_SLOTS
        modifies `slots, nodes`bitmap, nodes`numSlots
        invariant Valid() && Linked()
        invariant forall i :: 0 <= i < CLUSTER_SLOTS ==>
          slots[i] == if i < j && old(slots)[i] == oldMaster then myself else old(slots)[i]
      {
        assert NodeOk(oldMaster);
        if TestBit(oldMaster.bitmap, j) {
          MoveSlot(myself, j);
        }
      }
    }

    /** The node whose slots this node serves or copies. */
    function CurMaster(): ClusterNode?
      reads this, myself
    {
      if myself.isMaster then myself else myself.slaveOf
    }

    /** A claim takes a slot that is not being imported from nobody, or from an owner of a lower epoch. */
    predicate Taken(sender: ClusterNode, epoch: nat, claimed: Bitmap, j: nat)
      requires j < CLUSTER_SLOTS && |slots| == CLUSTER_SLOTS && |importing| == CLUSTER_SLOTS
      reads this, slots[j]
    {
      && TestBit(claimed, j) && slots[j] != sender && importing[j] == null
      && (slots[j] == null || slots[j].configEpoch < epoch)
    }

    /** The loop of clusterUpdateSlotsConfigWith. */
    method TakeSlots(sender: ClusterNode, epoch: nat, claimed: Bitmap) returns (dirty: seq<nat>, newMaster: bool)
      requires Valid() && sender in nodes && sender != myself
      modifies `slots, nodes`bitmap, nodes`numSlots
      ensures Valid()
      ensures forall j :: 0 <= j < CLUSTER_SLOTS ==>
        slots[j] == if old(Taken(sender, epoch, claimed, j)) then sender else old(slots)[j]
      ensures forall j :: j in dirty <==>
        0 <= j < CLUSTER_SLOTS && old(Taken(sender, epoch, claimed, j)) && old(slots)[j] == myself && keys[j] > 0
      ensures forall a, b :: 0 <= a < b < |dirty| ==> dirty[a] < dirty[b]
      ensures newMaster <==>
        exists j :: 0 <= j < CLUSTER_SLOTS && old(Taken(sender, epoch, claimed, j)) && old(slots)[j] == CurMaster()
    {
      hide NodeOk, TestBit;
      dirty, newMaster := [], false;
      for j := 0 to CLUSTER_SLOTS
        invariant Valid()
        invariant forall i :: 0 <= i < j ==>
          slots[i] == if old(Taken(sender, epoch, claimed, i)) then sender else old(slots)[i]
        invariant forall i :: j <= i < CLUSTER_SLOTS ==> slots[i] == old(slots)[i]
        invariant forall i :: i in dirty <==>
          0 <= i < j && old(Taken(sender, epoch, claimed, i)) && old(slots)[i] == myself && keys[i] > 0
        invariant forall a, b :: 0 <= a < b < |dirty| ==> dirty[a] < dirty[b]
        invariant newMaster <==>
          exists i :: 0 <= i < j && old(Taken(sender, epoch, claimed, i)) && old(slots)[i] == CurMaster()
      {
        assert Taken(sender, epoch, claimed, j) == old(Taken(sender, epoch, claimed, j));
        if TestBit(claimed, j) {
          if slots[j] == sender { continue; }
          if importing[j] != null { continue; }
          if slots[j] == null || slots[j].configEpoch < epoch {
            if slots[j] == myself && keys[j] > 0 {
              assert forall a :: 0 <= a < |dirty| ==> dirty[a] in dirty;
              dirty := dirty + [j];
            }
            if slots[j] == CurMaster() { newMaster := true; }
            MoveSlot(sender, j);
          }
        }
      }
    }

    /** clusterSetMaster; both its assertions are preconditions. */
    method SetMaster(n: ClusterNode)
      requires Valid() && Linked() && n in nodes && n != myself && myself.numSlots == 0
      modifies `importing, `migrating, myself`isMaster, myself`slaveOf
      ensures Valid() && Linked() && !myself.isMaster && myself.slaveOf == n
      ensures !old(myself.isMaster) ==> importing == old(importing) && migrating == old(migrating)
    {
      if myself.isMaster {
        myself.isMaster := false;
        importing := seq(CLUSTER_SLOTS, _ => null);
        migrating := seq(CLUSTER_SLOTS, _ => null);
      }
      myself.slaveOf := n;
    }

    /** delKeysInSlot for every slot of the list. */
    method DeleteKeys(dirty: seq<nat>)
      requires Valid() && forall j <- dirty :: j < CLUSTER_SLOTS
      modifies `keys
      ensures Valid() && forall j :: 0 <= j < CLUSTER_SLOTS ==> keys[j] == if j in dirty then 0 else old(keys)[j]
    {
      for i := 0 to |dirty|
        invariant Valid()
        invariant forall j :: 0 <= j < CLUSTER_SLOTS ==> keys[j] == if j in dirty[..i] then 0 else old(keys)[j]
      {
        assert dirty[i] in dirty;
        keys := keys[dirty[i] := 0];
        assert dirty[..i + 1] == dirty[..i] + [dirty[i]];
      }
      assert dirty[..|dirty|] == dirty;
    }

    ghost predicate Slotless(n: ClusterNode?)
      requires |slots| == CLUSTER_SLOTS
      reads `slots
    {
      forall j :: 0 <= j < CLUSTER_SLOTS ==> slots[j] != n
    }

    /** Whether the claim takes a slot from the current master. */
    ghost predicate TakesFromMaster(sender: ClusterNode, epoch: nat, claimed: Bitmap)
      requires |slots| == CLUSTER_SLOTS && |importing| == CLUSTER_SLOTS
      reads this, nodes, myself, slots
    {
      exists j :: 0 <= j < CLUSTER_SLOTS && Taken(sender, epoch, claimed, j) && slots[j] == CurMaster()
    }

    method UpdateSlotsConfigWith(sender: ClusterNode, epoch: nat, claimed: Bitmap, noRedirection: bool)
        returns (r: Outcome)
      requires Valid() && Linked() && sender in nodes
      modifies `slots, `importing, `migrating, `keys, nodes`bitmap, nodes`numSlots, myself`isMaster, myself`slaveOf
      ensures Valid() && Linked()
      ensures r == Discarded <==> sender == myself
      // The slots
      ensures forall j :: 0 <= j < CLUSTER_SLOTS ==>
        slots[j] == if sender != myself && old(Taken(sender, epoch, claimed, j)) then sender else old(slots)[j]
      ensures sender.configEpoch >= epoch ==>
        forall j :: 0 <= j < CLUSTER_SLOTS && old(slots)[j] != null && slots[j] != old(slots)[j] ==>
          slots[j] != null && slots[j].configEpoch > old(slots)[j].configEpoch
      // The role: left without slots, this node or its replicas follow the sender
      ensures r == Replicate || r == AssertionFailed <==>
        && sender != myself && !noRedirection && old(CurMaster()) != null
        && old(TakesFromMaster(sender, epoch, claimed)) && Slotless(old(CurMaster()))
      ensures r == AssertionFailed ==> !old(myself.isMaster) && !Slotless(myself)
      ensures r == Replicate ==> Slotless(myself)
      ensures r == Replicate ==> !myself.isMaster && myself.slaveOf == sender
      ensures r != Replicate ==> myself.isMaster == old(myself.isMaster) && myself.slaveOf == old(myself.slaveOf)
      ensures r != Replicate ==> importing == old(importing)
      // The keys of the slots that were lost
      ensures forall j :: 0 <= j < CLUSTER_SLOTS ==>
        keys[j] == if r.KeysDeleted? && old(slots)[j] == myself && slots[j] != myself then 0 else old(keys)[j]
      ensures r == Discarded || noRedirection || r == Replicate || r == NullMaster || r == AssertionFailed ||
        forall j :: 0 <= j < CLUSTER_SLOTS && old(slots)[j] == myself && slots[j] != myself ==> keys[j] == 0
      // A replica without a master reads through a null pointer as soon as somebody claims a free slot
      ensures r == NullMaster <==>
        && sender != myself && !noRedirection && !old(myself.isMaster) && old(myself.slaveOf) == null
        && exists j :: 0 <= j < CLUSTER_SLOTS && TestBit(claimed, j) && old(slots)[j] == null && importing[j] == null
    {
      hide NodeOk, TestBit;
      var curMaster := CurMaster();
      if sender == myself { return Discarded; }
      var dirty, newMaster := TakeSlots(sender, epoch, claimed);
      NoSlotsLeft(myself);
      if noRedirection { return SlotsOnly; }
      if newMaster && curMaster == null { return NullMaster; }
      if newMaster { NoSlotsLeft(curMaster); }
      if newMaster && curMaster.numSlots == 0 {
        if myself.numSlots != 0 { return AssertionFailed; }
        SetMaster(sender);
        return Replicate;
      } else if |dirty| > 0 {
        DeleteKeys(dirty);
        return KeysDeleted(dirty);
      }
      assert dirty == [];
      return SlotsOnly;
    }

    /** The counter is zero exactly when the table does not name the node. */
    lemma NoSlotsLeft(n: ClusterNode)
      requires Valid() && n in nodes
      ensures n.numSlots == 0 <==> Slotless(n)
    {
      assert NodeOk(n);
      CountZero(n.bitmap, CLUSTER_SLOTS);
    }

    /** What this node knows about the slots and the epochs. */
    ghost function Known(): (v: View<ClusterNode>)
      requires Valid()
      reads this, nodes
      ensures SlotClaims.Valid(v)
    {
      View(Owners(slots), map n <- nodes :: n.configEpoch)
    }

    /** The slots a claim is about: those being imported are left alone. */
    ghost function Claimable(claimed: Bitmap): set<nat>
      requires |importing| == CLUSTER_SLOTS
      reads `importing
    {
      set j | 0 <= j < CLUSTER_SLOTS && TestBit(claimed, j) && importing[j] == null
    }

    /** A packet of a master: its epoch is recorded first, and a bitmap that shows nothing new is not scanned. */
    method ReceiveClaim(sender: ClusterNode, epoch: nat, claimed: Bitmap, noRedirection: bool)
      requires Valid() && Linked() && sender in nodes && sender != myself
      modifies `slots, `importing, `migrating, `keys, nodes`bitmap, nodes`numSlots
      modifies sender`configEpoch, myself`isMaster, myself`slaveOf
      ensures Valid() && Linked()
      ensures Known() == Receive(old(Known()), Claim(sender, epoch, old(Claimable(claimed))))
    {
      hide NodeOk, TestBit;
      ghost var before, c := Known(), Claim(sender, epoch, Claimable(claimed));
      if epoch > sender.configEpoch { sender.configEpoch := epoch; }
      SameBitmap(sender, claimed);
      if sender.bitmap != claimed {
        var _ := UpdateSlotsConfigWith(sender, epoch, claimed, noRedirection);
      }
      assert Known().owners == Receive(before, c).owners;
      assert Known().epochs == Receive(before, c).epochs;
    }

    /** A claim of exactly the slots the sender has takes nothing. */
    lemma SameBitmap(sender: ClusterNode, claimed: Bitmap)
      requires Valid() && sender in nodes
      ensures sender.bitmap == claimed ==> forall j :: 0 <= j < CLUSTER_SLOTS && TestBit(claimed, j) ==>
        slots[j] == sender
    {
      assert NodeOk(sender);
    }
  }

  ghost function Owners(slots: seq<ClusterNode?>): seq<Option<ClusterNode>> {
    seq(|slots|, j requires 0 <= j < |slots| => if slots[j] == null then None else Some(slots[j]))
  }

  lemma EmptyNode()
    ensures Count(EMPTY, CLUSTER_SLOTS) == 0 && forall j :: 0 <= j < CLUSTER_SLOTS ==> !TestBit(EMPTY, j)
  {
    forall j | 0 <= j < CLUSTER_SLOTS
      ensures !TestBit(EMPTY, j)
    {
      EmptyBits(j);
    }
    CountZero(EMPTY, CLUSTER_SLOTS);
  }

  /** A node whose line in nodes.conf has the slave flag and no master, and a master that claims slot 0. */
  method ReplicaWithoutMaster() returns (r: Outcome)
    ensures r == NullMaster
  {
    var me := new ClusterNode(false, 0);
    var cluster := new Cluster(me);
    var other := new ClusterNode(true, 1);
    cluster.AddNode(other);
    var claimed := SetBit(EMPTY, 0, true);
    TestOfSet(EMPTY, 0, true, 0);
    assert TestBit(claimed, 0) && cluster.slots[0] == null && cluster.importing[0] == null;
    r := cluster.UpdateSlotsConfigWith(other, 1, claimed, false);
  }
}
