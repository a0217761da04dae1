/**
 The end of config epoch collisions.

 Start from masters that all know each other and let them exchange pings in any order, with any delay and
 any loss. Every epoch any of them ever used is still the epoch of one of them, so a master changes its
 epoch at most once for every master with a greater name, and the one with the greatest name never does.
 */
module ClusterCollisions {
  import opened Prelude
  import opened ClusterBus
  import opened ClusterEpochs

  predicate OnlyPings(actions: seq<Action>) {
    forall a <- actions :: a.SendPing? || a.Deliver? || a.Drop?
  }

  /** A master whose table holds masters past their handshake. */
  ghost predicate Settled(n: Node) {
    && NodeEpochs(n)
    && Self(n).slaveof.None?
    && forall p <- n.peers :: n.peers[p].master && !n.peers[p].handshake
  }

  /** What an epoch used by node i has become: its current one, or one a node with a greater name used. */
  ghost predicate Accounted(w: World, i: NodeId, e: nat)
    requires i in w.nodes && WellFormed(w.nodes[i])
  {
    || e == Self(w.nodes[i]).configEpoch
    || exists j <- w.held | i < j :: e in w.held[j]
  }

  ghost predicate NodeHistory(w: World, i: NodeId)
    requires i in w.nodes && i in w.held && WellFormed(w.nodes[i])
  {
    && Self(w.nodes[i]).configEpoch in w.held[i]
    && forall e <- w.held[i] :: e <= Self(w.nodes[i]).configEpoch && Accounted(w, i, e)
  }

  ghost predicate PingOk(w: World, m: Message) {
    && m.payload.Ping? && m.slaveof.None? && MessageEpochs(m)
    && m.from in w.held && m.configEpoch in w.held[m.from]
  }

  ghost predicate CollisionInv(w: World) {
    && w.held.Keys == w.nodes.Keys
    && (forall i <- w.nodes :: w.nodes[i].id == i && Settled(w.nodes[i]))
    && (forall i <- w.nodes :: NodeHistory(w, i))
    && (forall m <- w.inFlight :: PingOk(w, m))
  }

  // ---------------------------------------------------------------------------
  // Every ping step keeps it
  // ---------------------------------------------------------------------------

  /** How a ping moves its receiver: its own epoch stays, or it collided and took a greater one. */
  ghost predicate PingMove(n: Node, m: Message, n': Node)
    requires WellFormed(n) && WellFormed(n')
  {
    && n'.id == n.id && Settled(n')
    && (|| Self(n').configEpoch == Self(n).configEpoch
        || (Self(n').configEpoch > Self(n).configEpoch && Self(n).configEpoch == m.configEpoch && n.id < m.from))
  }

  lemma PingMoves(n: Node, m: Message)
    requires Settled(n) && m.slaveof.None? && MessageEpochs(m) && m.from != n.id
    ensures
      var n' := ProcessPing(ProcessHeader(n, m), m, SenderConfigEpoch(n, m));
      WellFormed(n') && PingMove(n, m, n')
  {
    HeaderKeepsEpochs(n, m);
    PingKeepsEpochs(ProcessHeader(n, m), m, SenderConfigEpoch(n, m));
  }

  /** A node's own packet cannot come from a greater epoch than its own. */
  lemma OwnPingMovesNothing(n: Node, m: Message)
    requires Settled(n) && m.slaveof.None? && MessageEpochs(m) && m.from == n.id && m.configEpoch <= Self(n).configEpoch
    ensures
      var n' := ProcessPing(ProcessHeader(n, m), m, SenderConfigEpoch(n, m));
      WellFormed(n') && PingMove(n, m, n')
  {
    HeaderKeepsEpochs(n, m);
    PingKeepsEpochs(ProcessHeader(n, m), m, SenderConfigEpoch(n, m));
  }

  lemma MoveKeepsHistory(w: World, n: Node, m: Message, i: NodeId)
    requires CollisionInv(w) && PingOk(w, m) && n.id in w.nodes && WellFormed(n) && PingMove(w.nodes[n.id], m, n)
    requires i in w.nodes
    ensures NodeHistory(Put(w, n), i)
  {
    var w' := Put(w, n);
    assert NodeHistory(w, i);
    forall e <- w'.held[i]
      ensures e <= Self(w'.nodes[i]).configEpoch && Accounted(w', i, e)
    {
      if e in w.held[i] {
        assert Accounted(w, i, e);
        if i == n.id && e == Self(w.nodes[i]).configEpoch && e != Self(n).configEpoch {
          assert i < m.from && e in w'.held[m.from];
        } else if e != Self(w.nodes[i]).configEpoch {
          var j :| j in w.held && i < j && e in w.held[j];
          assert e in w'.held[j];
        }
      }
    }
  }

  lemma MoveKeepsInv(w: World, n: Node, m: Message)
    requires CollisionInv(w) && PingOk(w, m) && n.id in w.nodes && WellFormed(n) && PingMove(w.nodes[n.id], m, n)
    ensures CollisionInv(Put(w, n))
  {
    var w' := Put(w, n);
    assert w'.nodes.Keys == w.nodes.Keys;
    forall i <- w'.nodes
      ensures w'.nodes[i].id == i && Settled(w'.nodes[i]) && NodeHistory(w', i)
    {
      MoveKeepsHistory(w, n, m, i);
    }
    forall k <- w'.inFlight
      ensures PingOk(w', k)
    {
      assert PingOk(w, k);
    }
  }

  lemma MessagesKeepInv(w: World, inFlight: set<Message>)
    requires CollisionInv(w) && forall m <- inFlight :: m in w.inFlight || PingOk(w, m)
    ensures CollisionInv(w.(inFlight := inFlight))
  {
    var w' := w.(inFlight := inFlight);
    forall i <- w'.nodes
      ensures NodeHistory(w', i)
    {
      assert NodeHistory(w, i);
      forall e <- w'.held[i]
        ensures Accounted(w', i, e)
      {
        assert Accounted(w, i, e);
      }
    }
    forall k <- inFlight
      ensures PingOk(w', k)
    {
      assert PingOk(w, k);
    }
  }

  lemma DeliverKeepsInv(w0: World, m: Message, c: VoteChecks, again: bool)
    requires CollisionInv(w0) && m in w0.inFlight && Known(w0, m.to)
    ensures CollisionInv(DeliverTo(w0, m, c, again))
  {
    var w := if again then w0 else w0.(inFlight := w0.inFlight - {m});
    assert PingOk(w0, m) && NodeHistory(w0, m.to) && Settled(w0.nodes[m.to]);
    MessagesKeepInv(w0, w0.inFlight - {m});
    var n := w.nodes[m.to];
    if m.from == n.id {
      OwnPingMovesNothing(n, m);
    } else {
      PingMoves(n, m);
    }
    MoveKeepsInv(w, ProcessPing(ProcessHeader(n, m), m, SenderConfigEpoch(n, m)), m);
  }

  lemma PingStepKeepsInv(w: World, a: Action)
    requires CollisionInv(w) && (a.SendPing? || a.Deliver? || a.Drop?)
    ensures CollisionInv(Apply(w, a))
  {
    match a
    case SendPing(i, to) =>
      if Known(w, i) {
        assert NodeHistory(w, i) && Settled(w.nodes[i]);
        HeaderIsBounded(w.nodes[i], to, Ping);
        MessagesKeepInv(w, w.inFlight + {Header(w.nodes[i], to, Ping)});
      }
    case Deliver(m, c, again) =>
      if m in w.inFlight && Known(w, m.to) { DeliverKeepsInv(w, m, c, again); }
    case Drop(m) => MessagesKeepInv(w, w.inFlight - {m});
  }

  /** The history of epochs only grows, for the same nodes. */
  ghost predicate Grows(w: World, w': World) {
    && w'.nodes.Keys == w.nodes.Keys
    && forall i <- w.held :: i in w'.held && w.held[i] <= w'.held[i]
  }

  lemma PingStepGrows(w: World, a: Action)
    requires a.SendPing? || a.Deliver? || a.Drop?
    requires forall m <- w.inFlight :: m.payload.Ping?
    ensures Grows(w, Apply(w, a))
  {
  }

  lemma {:induction false} PingRunKeepsInv(w: World, actions: seq<Action>)
    requires CollisionInv(w) && OnlyPings(actions)
    ensures CollisionInv(Run(w, actions)) && Grows(w, Run(w, actions))
    decreases |actions|
  {
    if actions != [] {
      PingStepGrows(w, actions[0]);
      hide CollisionInv, Apply;
      PingStepKeepsInv(w, actions[0]);
      PingRunKeepsInv(Apply(w, actions[0]), actions[1..]);
    }
  }

  // ---------------------------------------------------------------------------
  // The bound
  // ---------------------------------------------------------------------------

  function Above(w: World, i: NodeId): set<NodeId> {
    set j <- w.nodes | i < j
  }

  ghost function CurrentEpochs(w: World, ids: set<NodeId>): set<nat>
    requires forall i <- ids :: i in w.nodes && WellFormed(w.nodes[i])
  {
    set i <- ids :: Self(w.nodes[i]).configEpoch
  }

  /** Every epoch a node ever used is the current epoch of that node or of one with a greater name. */
  lemma {:induction false} NoEpochIsAbandoned(w: World, i: NodeId, e: nat)
    requires CollisionInv(w) && i in w.nodes && e in w.held[i]
    ensures exists j <- w.nodes :: i <= j && Self(w.nodes[j]).configEpoch == e
    decreases Above(w, i)
  {
    assert NodeHistory(w, i) && Accounted(w, i, e);
    if e != Self(w.nodes[i]).configEpoch {
      var j :| j in w.held && i < j && e in w.held[j];
      assert j in Above(w, i) && j !in Above(w, j);
      NoEpochIsAbandoned(w, j, e);
    }
  }

  lemma ImageIsNoLarger(w: World, ids: set<NodeId>)
    requires forall i <- ids :: i in w.nodes && WellFormed(w.nodes[i])
    ensures |CurrentEpochs(w, ids)| <= |ids|
  {
    if ids != {} {
      var i :| i in ids;
      ImageIsNoLarger(w, ids - {i});
      assert CurrentEpochs(w, ids) == CurrentEpochs(w, ids - {i}) + {Self(w.nodes[i]).configEpoch};
    }
  }

  lemma EpochsUsed(w: World, i: NodeId)
    requires CollisionInv(w) && i in w.nodes
    ensures |w.held[i]| <= 1 + |Above(w, i)|
  {
    var ids := Above(w, i) + {i};
    InvKnown(w);
    assert i in w.held;
    hide CollisionInv;
    forall e <- w.held[i]
      ensures e in CurrentEpochs(w, ids)
    {
      NoEpochIsAbandoned(w, i, e);
      var j :| j in w.nodes && i <= j && Self(w.nodes[j]).configEpoch == e;
      assert j in ids;
    }
    SubsetCardinality(w.held[i], CurrentEpochs(w, ids));
    ImageIsNoLarger(w, ids);
  }

  /** All masters know each other as masters; nothing is in flight and every history starts now. */
  ghost predicate FreshMasters(w: World) {
    && w.inFlight == {} && w.held.Keys == w.nodes.Keys
    && forall i <- w.nodes ::
      w.nodes[i].id == i && Settled(w.nodes[i]) && w.held[i] == {Self(w.nodes[i]).configEpoch}
  }

  /** Over every exchange of pings, a master holds at most one epoch more than there are masters with a
      greater name: collisions stop, and the master with the greatest name keeps its epoch. */
  lemma CollisionsEnd(w: World, actions: seq<Action>, i: NodeId)
    requires FreshMasters(w) && OnlyPings(actions) && i in w.nodes
    ensures i in Run(w, actions).held && |Run(w, actions).held[i]| <= 1 + |Above(w, i)|
    ensures Above(w, i) == {} ==>
              i in Run(w, actions).nodes && WellFormed(Run(w, actions).nodes[i]) &&
              Self(Run(w, actions).nodes[i]).configEpoch == Self(w.nodes[i]).configEpoch
  {
    FreshMastersInv(w);
    PingRunKeepsInv(w, actions);
    var w' := Run(w, actions);
    EpochsUsed(w', i);
    assert Above(w', i) == Above(w, i);
    assert NodeHistory(w', i);
    if Above(w, i) == {} {
      SubsetCardinality({Self(w.nodes[i]).configEpoch}, w'.held[i]);
    }
  }

  lemma FreshMastersInv(w: World)
    requires FreshMasters(w)
    ensures CollisionInv(w)
  {
    forall i <- w.nodes
      ensures NodeHistory(w, i)
    {
      assert Accounted(w, i, Self(w.nodes[i]).configEpoch);
    }
  }

  // ---------------------------------------------------------------------------
  // Where it ends
  // ---------------------------------------------------------------------------

  /** All masters know each other, under epochs they really used. */
  ghost predicate Acquainted(w: World) {
    w.nodes.Keys <= w.counted.Keys && forall i <- w.nodes, j <- w.nodes :: KnowsOf(w, i, j)
  }

  ghost predicate KnowsOf(w: World, i: NodeId, j: NodeId)
    requires i in w.nodes && j in w.nodes
  {
    && j in w.nodes[i].peers && WellFormed(w.nodes[j])
    && w.nodes[i].peers[j].configEpoch <= Self(w.nodes[j]).configEpoch
  }

  /** What a ping does to the receiver's table: the sender's record rises to the ping's epoch, and its own entry
      may rise. */
  lemma PingRecords(n: Node, m: Message, j: NodeId)
    requires WellFormed(n) && j in n.peers
    ensures
      var n' := ProcessPing(ProcessHeader(n, m), m, SenderConfigEpoch(n, m));
      && WellFormed(n') && j in n'.peers
      && (j != n.id ==> n'.peers[j].configEpoch <= if j == m.from then Max(n.peers[j].configEpoch, m.configEpoch)
        else n.peers[j].configEpoch)
  {
  }

  /** One node changed: its own epoch did not fall, and what it records of others they really used. */
  lemma InstallKeepsAcquainted(w: World, w': World, n: Node)
    requires Acquainted(w) && n.id in w.nodes && w'.nodes == w.nodes[n.id := n] && w'.counted == w.counted
    requires WellFormed(n)
    requires WellFormed(w.nodes[n.id]) && Self(n).configEpoch >= Self(w.nodes[n.id]).configEpoch
    requires forall j <- w.nodes | j != n.id ::
      j in n.peers && WellFormed(w.nodes[j]) && n.peers[j].configEpoch <= Self(w.nodes[j]).configEpoch
    ensures Acquainted(w')
  {
    forall i <- w'.nodes, j <- w'.nodes
      ensures KnowsOf(w', i, j)
    {
      assert KnowsOf(w, i, j) && KnowsOf(w, j, j);
    }
  }

  lemma PingEpochWasUsed(w: World, m: Message)
    requires CollisionInv(w) && m in w.inFlight && m.to in w.nodes
    ensures m.from in w.nodes && WellFormed(w.nodes[m.from]) && m.configEpoch <= Self(w.nodes[m.from]).configEpoch
    ensures m.payload.Ping? && m.slaveof.None? && MessageEpochs(m)
    ensures w.nodes[m.to].id == m.to && Settled(w.nodes[m.to])
  {
    assert PingOk(w, m) && NodeHistory(w, m.from);
  }

  lemma MoveKeepsAcquainted(w: World, m: Message, c: VoteChecks, again: bool)
    requires CollisionInv(w) && Acquainted(w) && m in w.inFlight && Known(w, m.to)
    ensures Acquainted(DeliverTo(w, m, c, again))
  {
    hide ProcessPing, ProcessHeader, CollisionInv, Settled, MessageEpochs, Acquainted;
    PingEpochWasUsed(w, m);
    var n := w.nodes[m.to];
    if m.from == n.id {
      OwnPingMovesNothing(n, m);
    } else {
      PingMoves(n, m);
    }
    HeaderKeepsTable(n, m);
    var n' := ProcessPing(ProcessHeader(n, m), m, SenderConfigEpoch(n, m));
    forall j <- w.nodes | j != n.id
      ensures j in n'.peers && WellFormed(w.nodes[j]) && n'.peers[j].configEpoch <= Self(w.nodes[j]).configEpoch
    {
      AcquaintedPair(w, n.id, j);
      PingRecords(n, m, j);
    }
    InstallKeepsAcquainted(w, DeliverTo(w, m, c, again), n');
  }

  lemma HeaderKeepsTable(n: Node, m: Message)
    requires WellFormed(n)
    ensures WellFormed(ProcessHeader(n, m))
  {
  }

  lemma AcquaintedPair(w: World, i: NodeId, j: NodeId)
    requires Acquainted(w) && i in w.nodes && j in w.nodes
    ensures KnowsOf(w, i, j)
  {
  }

  lemma {:induction false} RunKeepsAcquainted(w: World, actions: seq<Action>)
    requires CollisionInv(w) && Acquainted(w) && OnlyPings(actions)
    ensures Acquainted(Run(w, actions))
    decreases |actions|
  {
    if actions != [] {
      PingStepKeepsInv(w, actions[0]);
      StepKeepsAcquainted(w, actions[0]);
      RunKeepsAcquainted(Apply(w, actions[0]), actions[1..]);
    }
  }

  lemma StepKeepsAcquainted(w: World, a: Action)
    requires CollisionInv(w) && Acquainted(w) && (a.SendPing? || a.Deliver? || a.Drop?)
    ensures Acquainted(Apply(w, a))
  {
    hide CollisionInv, DeliverTo;
    if a.Deliver? && a.m in w.inFlight && Known(w, a.m.to) {
      MoveKeepsAcquainted(w, a.m, a.checks, a.again);
    } else {
      assert Apply(w, a).nodes == w.nodes && Apply(w, a).counted == w.counted;
      forall i <- w.nodes, j <- w.nodes
        ensures KnowsOf(Apply(w, a), i, j)
      {
        assert KnowsOf(w, i, j);
      }
    }
  }

  ghost predicate AllKnown(w: World) {
    forall i <- w.nodes :: WellFormed(w.nodes[i])
  }

  ghost predicate AllDifferent(w: World)
    requires AllKnown(w)
  {
    forall i <- w.nodes, j <- w.nodes :: i != j ==> Self(w.nodes[i]).configEpoch != Self(w.nodes[j]).configEpoch
  }

  /** The same masters with the same epochs. */
  ghost predicate SameEpochs(w: World, w': World)
    requires AllKnown(w)
  {
    && AllKnown(w') && w'.nodes.Keys == w.nodes.Keys
    && forall i <- w.nodes :: Self(w'.nodes[i]).configEpoch == Self(w.nodes[i]).configEpoch
  }

  lemma InvKnown(w: World)
    requires CollisionInv(w)
    ensures AllKnown(w)
  {
    assert forall i <- w.nodes :: Settled(w.nodes[i]);
  }

  /** A master with a greater name than the receiver still has the epoch of a ping, or one greater still does. */
  lemma PingEpochIsTaken(w: World, m: Message)
    requires CollisionInv(w) && m in w.inFlight && m.to in w.nodes && AllKnown(w) && AllDifferent(w) && m.to < m.from
    ensures Self(w.nodes[m.to]).configEpoch != m.configEpoch
  {
    assert PingOk(w, m);
    NoEpochIsAbandoned(w, m.from, m.configEpoch);
    var j :| j in w.nodes && m.from <= j && Self(w.nodes[j]).configEpoch == m.configEpoch;
    hide CollisionInv;
    assert j != m.to;
  }

  lemma DeliveredPing(w: World, m: Message, c: VoteChecks, again: bool) returns (n': Node)
    requires CollisionInv(w) && m in w.inFlight && Known(w, m.to)
    ensures WellFormed(n') && PingMove(w.nodes[m.to], m, n')
    ensures DeliverTo(w, m, c, again).nodes == w.nodes[m.to := n']
  {
    PingEpochWasUsed(w, m);
    var n := w.nodes[m.to];
    n' := ProcessPing(ProcessHeader(n, m), m, SenderConfigEpoch(n, m));
    hide ProcessPing, ProcessHeader, CollisionInv, Settled, MessageEpochs;
    if m.from == n.id {
      OwnPingMovesNothing(n, m);
    } else {
      PingMoves(n, m);
    }
  }

  /** Whatever is in flight, a ping that moved its receiver would carry the receiver's epoch. */
  lemma DeliveryMovesNobody(w: World, m: Message, c: VoteChecks, again: bool)
    requires CollisionInv(w) && m in w.inFlight && Known(w, m.to) && AllKnown(w) && AllDifferent(w)
    ensures SameEpochs(w, DeliverTo(w, m, c, again))
  {
    hide CollisionInv, DeliverTo, Settled;
    var n' := DeliveredPing(w, m, c, again);
    if m.to < m.from { PingEpochIsTaken(w, m); }
  }

  lemma StepMovesNobody(w: World, a: Action)
    requires CollisionInv(w) && AllKnown(w) && AllDifferent(w) && (a.SendPing? || a.Deliver? || a.Drop?)
    ensures SameEpochs(w, Apply(w, a)) && AllDifferent(Apply(w, a))
  {
    hide CollisionInv, DeliverTo;
    if a.Deliver? && a.m in w.inFlight && Known(w, a.m.to) {
      DeliveryMovesNobody(w, a.m, a.checks, a.again);
    } else {
      assert Apply(w, a).nodes == w.nodes;
    }
  }

  lemma {:induction false} DifferentIsQuiet(w: World, more: seq<Action>)
    requires CollisionInv(w) && AllKnown(w) && AllDifferent(w) && OnlyPings(more)
    ensures SameEpochs(w, Run(w, more))
    decreases |more|
  {
    if more != [] {
      hide CollisionInv, Apply;
      StepMovesNobody(w, more[0]);
      PingStepKeepsInv(w, more[0]);
      DifferentIsQuiet(Apply(w, more[0]), more[1..]);
    }
  }

  /** The ping of a master with a greater name and the same epoch moves its receiver. */
  lemma CollisionMoves(w: World, i: NodeId, j: NodeId)
    requires CollisionInv(w) && i in w.nodes && j in w.nodes && i < j && KnowsOf(w, i, j) && KnowsOf(w, j, i)
    requires Self(w.nodes[i]).configEpoch == Self(w.nodes[j]).configEpoch
    ensures
      var n, m := w.nodes[i], Header(w.nodes[j], i, Ping);
      var n' := ProcessPing(ProcessHeader(n, m), m, SenderConfigEpoch(n, m));
      n'.id == n.id && WellFormed(n') && Self(n').configEpoch > Self(n).configEpoch
  {
    var a, b := w.nodes[i], w.nodes[j];
    assert Settled(a) && Settled(b);
    hide CollisionInv;
    assert a.id == i && b.id == j;
  }

  const ANY_CHECKS := VoteChecks(true, true, true)

  /** One master pings another. */
  function Exchange(w: World, i: NodeId, j: NodeId): seq<Action>
    requires j in w.nodes && WellFormed(w.nodes[j])
  {
    [SendPing(j, i), Deliver(Header(w.nodes[j], i, Ping), ANY_CHECKS, false)]
  }

  lemma ExchangeDelivers(w: World, i: NodeId, j: NodeId)
    requires Known(w, i) && Known(w, j)
    ensures
      var n, m := w.nodes[i], Header(w.nodes[j], i, Ping);
      var n' := ProcessPing(ProcessHeader(n, m), m, SenderConfigEpoch(n, m));
      OnlyPings(Exchange(w, i, j)) && Run(w, Exchange(w, i, j)).nodes == w.nodes[n'.id := n']
  {
    hide ProcessPing, ProcessHeader;
    var actions := Exchange(w, i, j);
    var sent := Apply(w, actions[0]);
    var none: seq<Action> := [];
    assert Run(sent, actions[1..]) == Run(Apply(sent, actions[1]), none) by {
      assert actions[1..][0] == actions[1] && actions[1..][1..] == none;
    }
  }

  lemma CollisionIsNotQuiet(w: World, i: NodeId, j: NodeId)
    requires CollisionInv(w) && Acquainted(w) && AllKnown(w) && i in w.nodes && j in w.nodes && i < j
    requires Self(w.nodes[i]).configEpoch == Self(w.nodes[j]).configEpoch
    ensures OnlyPings(Exchange(w, i, j)) && !SameEpochs(w, Run(w, Exchange(w, i, j)))
  {
    AcquaintedPair(w, i, j);
    AcquaintedPair(w, j, i);
    CollisionMoves(w, i, j);
    assert w.nodes[i].id == i && w.nodes[j].id == j;
    ExchangeDelivers(w, i, j);
  }

  /** Over every exchange of pings between acquainted masters: no further exchange, with whatever is in flight, moves
      anybody if and only if all their epochs are different. */
  lemma QuietIffDifferent(w: World, actions: seq<Action>)
    requires FreshMasters(w) && Acquainted(w) && OnlyPings(actions)
    ensures
      var r := Run(w, actions);
      AllKnown(r) && (AllDifferent(r) <==> forall more :: OnlyPings(more) ==> SameEpochs(r, Run(r, more)))
  {
    FreshMastersInv(w);
    PingRunKeepsInv(w, actions);
    RunKeepsAcquainted(w, actions);
    var r := Run(w, actions);
    InvKnown(r);
    hide CollisionInv, Acquainted, AllKnown, Run, OnlyPings, SameEpochs, Exchange;
    if AllDifferent(r) {
      forall more | OnlyPings(more)
        ensures SameEpochs(r, Run(r, more))
      {
        DifferentIsQuiet(r, more);
      }
    } else {
      var i, j := SomePair(r);
      CollisionIsNotQuiet(r, i, j);
    }
  }

  lemma SomePair(w: World) returns (i: NodeId, j: NodeId)
    requires AllKnown(w) && !AllDifferent(w)
    ensures i in w.nodes && j in w.nodes && i < j && Self(w.nodes[i]).configEpoch == Self(w.nodes[j]).configEpoch
  {
    i, j :| i in w.nodes && j in w.nodes && i != j && Self(w.nodes[i]).configEpoch == Self(w.nodes[j]).configEpoch;
    if j < i {
      i, j := j, i;
    }
  }

  // ---------------------------------------------------------------------------
  // That it ends
  // ---------------------------------------------------------------------------

  /** How many more epochs the masters named below n can use. */
  ghost function Slack(w: World, n: nat): nat
    requires CollisionInv(w)
  {
    if n == 0 then 0 else Slack(w, n - 1) + SlackOf(w, n - 1)
  }

  ghost function SlackOf(w: World, i: NodeId): nat
    requires CollisionInv(w)
  {
    if i !in w.nodes then 0 else
      EpochsUsed(w, i);
      1 + |Above(w, i)| - |w.held[i]|
  }

  /** Histories that grow leave less. */
  lemma GrowsLess(w: World, w': World, i: NodeId)
    requires CollisionInv(w) && CollisionInv(w') && Grows(w, w')
    ensures SlackOf(w', i) <= SlackOf(w, i)
    ensures i in w.nodes && w'.held[i] != w.held[i] ==> SlackOf(w', i) < SlackOf(w, i)
  {
    hide CollisionInv, Settled;
    HeldKeys(w);
    HeldKeys(w');
    if i in w.nodes {
      assert Above(w', i) == Above(w, i);
      SubsetCardinality(w.held[i], w'.held[i]);
    }
  }

  lemma HeldKeys(w: World)
    requires CollisionInv(w)
    ensures w.held.Keys == w.nodes.Keys
  {
  }

  lemma {:induction false} SlackFalls(w: World, w': World, i: NodeId, n: nat)
    requires CollisionInv(w) && CollisionInv(w') && Grows(w, w') && i in w.nodes && w'.held[i] != w.held[i]
    ensures Slack(w', n) <= Slack(w, n) && (i < n ==> Slack(w', n) < Slack(w, n))
    decreases n
  {
    hide SlackOf, Grows;
    if n > 0 {
      GrowsLess(w, w', n - 1);
      SlackFalls(w, w', i, n - 1);
    }
  }

  lemma BoundOf(ids: set<NodeId>) returns (n: nat)
    ensures forall i <- ids :: i < n
  {
    if ids == {} {
      n := 0;
    } else {
      var i :| i in ids;
      var rest := BoundOf(ids - {i});
      n := Max(rest, i + 1);
      assert forall k <- ids :: k == i || k in ids - {i};
    }
  }

  lemma ExchangeUsesNewEpoch(w: World, i: NodeId, j: NodeId)
    requires CollisionInv(w) && Acquainted(w) && AllKnown(w) && i in w.nodes && j in w.nodes && i < j
    requires Self(w.nodes[i]).configEpoch == Self(w.nodes[j]).configEpoch
    ensures
      var w' := Run(w, Exchange(w, i, j));
      && OnlyPings(Exchange(w, i, j)) && CollisionInv(w') && Acquainted(w') && Grows(w, w')
      && w'.held[i] != w.held[i]
  {
    AcquaintedPair(w, i, j);
    AcquaintedPair(w, j, i);
    CollisionMoves(w, i, j);
    assert NodeHistory(w, i) && w.nodes[i].id == i && w.nodes[j].id == j;
    ExchangeDelivers(w, i, j);
    hide ProcessPing, ProcessHeader;
    var w' := Run(w, Exchange(w, i, j));
    PingRunKeepsInv(w, Exchange(w, i, j));
    RunKeepsAcquainted(w, Exchange(w, i, j));
    assert NodeHistory(w', i);
    assert Self(w'.nodes[i]).configEpoch !in w.held[i];
  }

  lemma {:induction false} Resolve(w: World, n: nat) returns (more: seq<Action>)
    requires CollisionInv(w) && Acquainted(w) && AllKnown(w) && forall i <- w.nodes :: i < n
    ensures OnlyPings(more) && AllKnown(Run(w, more)) && AllDifferent(Run(w, more))
    decreases Slack(w, n)
  {
    if AllDifferent(w) {
      more := [];
    } else {
      hide CollisionInv, Acquainted, Slack, Exchange;
      var i, j := SomePair(w);
      ExchangeUsesNewEpoch(w, i, j);
      var first := Exchange(w, i, j);
      var w' := Run(w, first);
      InvKnown(w');
      SlackFalls(w, w', i, n);
      var rest := Resolve(w', n);
      RunConcat(w, first, rest);
      more := first + rest;
    }
  }

  /** Whatever was exchanged so far, acquainted masters can go on to different epochs, which then last. */
  lemma DifferentIsReachable(w: World, actions: seq<Action>) returns (more: seq<Action>)
    requires FreshMasters(w) && Acquainted(w) && OnlyPings(actions)
    ensures OnlyPings(more) && AllKnown(Run(w, actions + more)) && AllDifferent(Run(w, actions + more))
  {
    FreshMastersInv(w);
    PingRunKeepsInv(w, actions);
    RunKeepsAcquainted(w, actions);
    hide CollisionInv, Acquainted, Run;
    var r := Run(w, actions);
    InvKnown(r);
    var n := BoundOf(r.nodes.Keys);
    more := Resolve(r, n);
    RunConcat(w, actions, more);
  }
}
