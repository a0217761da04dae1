/**
 Config epochs: what a node knows never exceeds its currentEpoch, so the epochs it takes for itself
 are new to it; and collisions between masters that took the same epoch come to an end.
 */
module ClusterEpochs {
  import opened Prelude
  import opened ClusterBus
  import opened ClusterNames

  // ---------------------------------------------------------------------------
  // The epoch invariant
  // ---------------------------------------------------------------------------

  ghost predicate NodeEpochs(n: Node) {
    && WellFormed(n)
    && n.authEpoch <= n.currentEpoch
    && KnowsNoGreaterEpoch(n)
  }

  /** A packet never carries a configEpoch above the currentEpoch in its own header. */
  ghost predicate MessageEpochs(m: Message) {
    && m.configEpoch <= m.currentEpoch
    && (m.payload.Update? ==> m.payload.epoch <= m.currentEpoch)
  }

  ghost predicate EpochInv(w: World) {
    && (forall i <- w.nodes :: NodeEpochs(w.nodes[i]))
    && (forall m <- w.inFlight :: MessageEpochs(m))
  }

  lemma HeaderKeepsEpochs(n: Node, m: Message)
    requires NodeEpochs(n) && MessageEpochs(m)
    ensures NodeEpochs(ProcessHeader(n, m))
  {
  }

  lemma PingKeepsEpochs(n: Node, m: Message, e: nat)
    requires NodeEpochs(n)
    ensures NodeEpochs(ProcessPing(n, m, e))
  {
  }

  /** Processing an UPDATE keeps the table below currentEpoch exactly when the sender is past its
      handshake, or the packet says nothing new to this node, or nothing above its currentEpoch. */
  lemma UpdateKeepsEpochsIff(n: Node, m: Message)
    requires NodeEpochs(n) && MessageEpochs(m) && m.payload.Update?
    ensures NodeEpochs(ProcessUpdate(ProcessHeader(n, m), m)) <==>
            || m.from !in n.peers || m.payload.about !in n.peers
            || !n.peers[m.from].handshake
            || m.payload.epoch <= n.currentEpoch
  {
    var h := ProcessHeader(n, m);
    HeaderKeepsEpochs(n, m);
    var u := ProcessUpdate(h, m);
    if m.from in n.peers && m.payload.about in n.peers && n.peers[m.from].handshake
      && m.payload.epoch > n.currentEpoch {
      assert u.peers[m.payload.about].configEpoch > u.currentEpoch;
    }
  }

  lemma HeaderIsBounded(n: Node, to: NodeId, payload: Payload)
    requires NodeEpochs(n) && (payload.Update? ==> payload.epoch <= n.currentEpoch)
    ensures MessageEpochs(Header(n, to, payload))
  {
  }

  lemma PutKeepsEpochs(w: World, n: Node)
    requires EpochInv(w) && NodeEpochs(n)
    ensures EpochInv(Put(w, n))
  {
  }

  lemma SendKeepsEpochs(w: World, ms: set<Message>)
    requires EpochInv(w) && forall m <- ms :: MessageEpochs(m)
    ensures EpochInv(w.(inFlight := w.inFlight + ms))
  {
  }

  lemma DeliverKeepsEpochs(w0: World, m: Message, c: VoteChecks, again: bool)
    requires EpochInv(w0) && m in w0.inFlight && Known(w0, m.to)
    requires m.from in w0.nodes[m.to].peers ==> SenderTrusted(w0.nodes[m.to], m)
    ensures EpochInv(DeliverTo(w0, m, c, again))
  {
    var w := if again && !m.payload.AuthAck? then w0 else w0.(inFlight := w0.inFlight - {m});
    assert EpochInv(w) && MessageEpochs(m) && NodeEpochs(w.nodes[m.to]);
    hide EpochInv, NodeEpochs;
    var before := w.nodes[m.to];
    var n := ProcessHeader(before, m);
    HeaderKeepsEpochs(before, m);
    match m.payload
    case Ping =>
      PingKeepsEpochs(n, m, SenderConfigEpoch(before, m));
      PutKeepsEpochs(w, ProcessPing(n, m, SenderConfigEpoch(before, m)));
    case Update(_, _) =>
      UpdateKeepsEpochsIff(before, m);
      PutKeepsEpochs(w, ProcessUpdate(n, m));
    case AuthRequest =>
      PutKeepsEpochs(w, n);
      if GrantsVote(n, m, c) { GrantKeepsEpochs(w, n, m.from); }
    case AuthAck =>
      PutKeepsEpochs(w, n);
      CountKeepsEpochs(w, n, w.counted[n.id] + {Ballot(m.from, m.currentEpoch)});
  }

  lemma GrantKeepsEpochs(w: World, n: Node, candidate: NodeId)
    requires EpochInv(w) && NodeEpochs(n)
    ensures
      var voted := n.(lastVoteEpoch := n.currentEpoch);
      EpochInv(Send(Put(w, voted).(votes := w.votes[Ballot(n.id, n.currentEpoch) := candidate]),
                    Header(voted, candidate, AuthAck)))
  {
    var voted := n.(lastVoteEpoch := n.currentEpoch);
    PutKeepsEpochs(w, voted);
    HeaderIsBounded(voted, candidate, AuthAck);
  }

  lemma CountKeepsEpochs(w: World, n: Node, ballots: set<Ballot>)
    requires EpochInv(w) && NodeEpochs(n)
    ensures EpochInv(Put(w, n.(authCount := n.authCount + 1)).(counted := w.counted[n.id := ballots]))
  {
    PutKeepsEpochs(w, n.(authCount := n.authCount + 1));
  }

  lemma LocalStepKeepsEpochs(w: World, a: Action, n: Node)
    requires EpochInv(w) && NodeEpochs(n) && !a.Deliver? && !a.Drop? && Known(w, a.n) && n == w.nodes[a.n]
    ensures EpochInv(ApplyAt(w, a, n))
  {
    hide EpochInv;
    match a
    case SendPing(_, to) =>
      HeaderIsBounded(n, to, Ping);
      SendKeepsEpochs(w, {Header(n, to, Ping)});
    case SendUpdate(_, to, about) =>
      if about in n.peers {
        HeaderIsBounded(n, to, Update(about, n.peers[about].configEpoch));
        SendKeepsEpochs(w, {Header(n, to, Update(about, n.peers[about].configEpoch))});
      }
    case StartElection(_, recipients) => StartKeepsEpochs(w, n, recipients);
    case Schedule(_) => ScheduleKeepsEpochs(w, n);
    case CheckQuorum(_) => WinKeepsEpochs(w, n);
    case _ => PutStepKeepsEpochs(w, a, n);
  }

  lemma StartKeepsEpochs(w: World, n: Node, recipients: set<NodeId>)
    requires EpochInv(w) && NodeEpochs(n) && Known(w, n.id) && n == w.nodes[n.id]
    ensures EpochInv(ApplyAt(w, StartElection(n.id, recipients), n))
  {
    if MayStandForElection(n) && !n.authSent {
      var started := n.(currentEpoch := n.currentEpoch + 1, authEpoch := n.currentEpoch + 1, authSent := true);
      PutKeepsEpochs(w, started);
      SendKeepsEpochs(Put(w, started), Requests(started, recipients * w.nodes.Keys));
    }
  }

  lemma ScheduleKeepsEpochs(w: World, n: Node)
    requires EpochInv(w) && NodeEpochs(n) && Known(w, n.id) && n == w.nodes[n.id]
    ensures EpochInv(ApplyAt(w, Schedule(n.id), n))
  {
    PutKeepsEpochs(w, n.(authCount := 0, authSent := false));
  }

  lemma WinKeepsEpochs(w: World, n: Node)
    requires EpochInv(w) && NodeEpochs(n) && Known(w, n.id) && n == w.nodes[n.id]
    ensures EpochInv(ApplyAt(w, CheckQuorum(n.id), n))
  {
    PutKeepsEpochs(w, TakeOver(n));
  }

  lemma PutStepKeepsEpochs(w: World, a: Action, n: Node)
    requires a.Bump? || a.SetConfigEpoch? || a.Meet? || a.EndHandshake? || a.Forget? || a.Observe? || a.Resize?
    requires EpochInv(w) && NodeEpochs(n) && Known(w, a.n) && n == w.nodes[a.n]
    ensures EpochInv(ApplyAt(w, a, n))
  {
    hide EpochInv, ApplyAt, NodeEpochs;
    PutStepEpochs(w, a, n);
    var w' := ApplyAt(w, a, n);
    if w' != w {
      PutKeepsEpochs(w, w'.nodes[a.n]);
    }
  }

  lemma PutStepEpochs(w: World, a: Action, n: Node)
    requires a.Bump? || a.SetConfigEpoch? || a.Meet? || a.EndHandshake? || a.Forget? || a.Observe? || a.Resize?
    requires NodeEpochs(n) && Known(w, a.n) && n == w.nodes[a.n]
    ensures
      var w' := ApplyAt(w, a, n);
      a.n in w'.nodes && NodeEpochs(w'.nodes[a.n]) && (w' == w || w' == Put(w, w'.nodes[a.n]))
  {
  }

  lemma ApplyKeepsEpochs(w: World, a: Action)
    requires EpochInv(w) && NamesOk(w)
    ensures EpochInv(Apply(w, a))
  {
    match a
    case Deliver(m, c, again) =>
      if m in w.inFlight && Known(w, m.to) {
        SendersAreTrusted(w, m);
        DeliverKeepsEpochs(w, m, c, again);
      }
    case Drop(m) =>
    case _ =>
      if Known(w, a.n) { LocalStepKeepsEpochs(w, a, w.nodes[a.n]); }
  }

  lemma {:induction false} RunKeepsEpochs(w: World, actions: seq<Action>)
    requires EpochInv(w) && NamesOk(w)
    ensures EpochInv(Run(w, actions)) && NamesOk(Run(w, actions))
    decreases |actions|
  {
    if actions != [] {
      hide EpochInv, NamesOk, Apply;
      ApplyKeepsEpochs(w, actions[0]);
      ApplyKeepsNames(w, actions[0]);
      RunKeepsEpochs(Apply(w, actions[0]), actions[1..]);
    }
  }

  /** In every run: every node's currentEpoch is at least every configEpoch of its table, every packet's currentEpoch
      at least the configEpochs it carries, and no packet comes from a peer in handshake. */
  lemma EpochInvariant(w: World, actions: seq<Action>)
    requires Initial(w)
    ensures EpochInv(Run(w, actions)) && NamesOk(Run(w, actions))
  {
    assert EpochInv(w);
    RunKeepsEpochs(w, actions);
  }

  // ---------------------------------------------------------------------------
  // Taking a new epoch
  // ---------------------------------------------------------------------------

  /** The node's configEpoch is above everything else it knows, and equal to its currentEpoch. */
  ghost predicate TookFreshEpoch(n: Node, n': Node)
    requires WellFormed(n) && WellFormed(n')
  {
    && n'.id == n.id
    && Self(n').configEpoch == n'.currentEpoch == n.currentEpoch + 1
    && (forall p <- n.peers :: n.peers[p].configEpoch < Self(n').configEpoch)
    && (forall p <- n'.peers | p != n.id :: n'.peers[p].configEpoch < Self(n').configEpoch)
  }

  /** A bump either takes a fresh epoch or finds that the node already has the greatest one. */
  lemma BumpTakesFreshEpoch(w: World, actions: seq<Action>, i: NodeId)
    requires Initial(w) && i in Run(w, actions).nodes
    ensures
      var n := Run(w, actions).nodes[i];
      && WellFormed(n)
      && (if Self(n).configEpoch != 0 && Self(n).configEpoch == n.currentEpoch
          then BumpEpoch(n) == n
          else TookFreshEpoch(n, BumpEpoch(n)))
  {
    EpochInvariant(w, actions);
    assert NodeEpochs(Run(w, actions).nodes[i]);
  }

  /** Of two masters that see each other with the same configEpoch, the one with the smaller name
      takes a fresh epoch and the other one does nothing. */
  lemma OnlySmallerNameMoves(a: Node, b: Node)
    requires NodeEpochs(a) && NodeEpochs(b) && a.id < b.id
    requires b.id in a.peers && a.id in b.peers
    requires Self(a).master && Self(b).master && a.peers[b.id].master && b.peers[a.id].master
    requires Self(a).configEpoch == a.peers[b.id].configEpoch && Self(b).configEpoch == b.peers[a.id].configEpoch
    ensures TookFreshEpoch(a, HandleCollision(a, b.id))
    ensures HandleCollision(b, a.id) == b
  {
  }

  // ---------------------------------------------------------------------------
  // The invariant is lost when an UPDATE of a node in handshake is believed
  // ---------------------------------------------------------------------------

  /** An entry in handshake under a node's real name, which only an edited nodes.conf can contain. */
  lemma HandshakeUpdateBreaksEpochs() returns (w: World, actions: seq<Action>)
    ensures Started(w) && !NamesOk(w) && !EpochInv(Run(w, actions))
  {
    var p := Peer(0, true, false, false, None);
    var one := Node(1, map[1 := p, 2 := p.(handshake := true)], 0, 0, 1, 0, 0, false);
    var two := Node(2, map[1 := p, 2 := p.(configEpoch := 5)], 5, 0, 1, 0, 0, false);
    w := World(map[1 := one, 2 := two], {}, map[], map[1 := {}, 2 := {}], {}, map[1 := {0}, 2 := {5}]);
    var m := Header(two, 1, Update(2, 5));
    actions := [SendUpdate(2, 1, 2), Deliver(m, VoteChecks(true, true, true), false)];
    HandshakeUpdateRun(w, one, two, m);
    hide NodeStarted;
    assert NodeStarted(w, 1) && NodeStarted(w, 2) by { EditedNodes(w); }
    assert 2 in Unfinished(w.nodes[1]) && 2 in w.nodes.Keys;
    hide Apply, EpochInv;
    var w1 := Apply(w, actions[0]);
    assert actions[1..] == [actions[1]];
    assert Run(w, actions) == Run(w1, actions[1..]) == Apply(w1, actions[1]);
  }

  lemma EditedNodes(w: World)
    requires 1 in w.nodes && 2 in w.nodes && w.counted == map[1 := {}, 2 := {}] && w.held == map[1 := {0}, 2 := {5}]
    requires
      var p := Peer(0, true, false, false, None);
      && w.nodes[1] == Node(1, map[1 := p, 2 := p.(handshake := true)], 0, 0, 1, 0, 0, false)
      && w.nodes[2] == Node(2, map[1 := p, 2 := p.(configEpoch := 5)], 5, 0, 1, 0, 0, false)
    ensures NodeStarted(w, 1) && NodeStarted(w, 2)
  {
  }

  lemma HandshakeUpdateRun(w: World, one: Node, two: Node, m: Message)
    requires Known(w, 1) && Known(w, 2) && w.nodes[1] == one && w.nodes[2] == two
    requires 2 in one.peers && one.peers[2].handshake && one.peers[2].configEpoch < two.peers[2].configEpoch
    requires one.currentEpoch < two.peers[2].configEpoch
    requires m == Header(two, 1, Update(2, two.peers[2].configEpoch))
    ensures !EpochInv(Apply(Apply(w, SendUpdate(2, 1, 2)), Deliver(m, VoteChecks(true, true, true), false)))
  {
    var w1 := Apply(w, SendUpdate(2, 1, 2));
    assert m in w1.inFlight && w1.nodes == w.nodes && w1.counted == w.counted;
    var w2 := Apply(w1, Deliver(m, VoteChecks(true, true, true), false));
    assert w2.nodes[1] == ProcessUpdate(one, m);
    assert !NodeEpochs(w2.nodes[1]) by {
      assert w2.nodes[1].peers[2].configEpoch > w2.nodes[1].currentEpoch;
    }
  }
}
