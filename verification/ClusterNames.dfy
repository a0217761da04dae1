/** Names on the bus: a peer in handshake has a random name, so no packet is ever taken for one of its. */
module ClusterNames {
  import opened Prelude
  import opened ClusterBus

  ghost predicate NamesOk(w: World) {
    && (forall i <- w.nodes :: w.nodes[i].id == i && Unfinished(w.nodes[i]) !! w.nodes.Keys)
    && (forall m <- w.inFlight :: m.from in w.nodes)
  }

  /** A packet whose sender is in the table is never from a peer in handshake. */
  lemma SendersAreTrusted(w: World, m: Message)
    requires NamesOk(w) && m in w.inFlight && m.to in w.nodes
    ensures m.from in w.nodes[m.to].peers ==> SenderTrusted(w.nodes[m.to], m)
  {
    assert m.from in w.nodes.Keys;
    assert m.from !in Unfinished(w.nodes[m.to]);
  }

  /** A step of one node: its handshakes are old ones or under names no node has, and it sends in its own name. */
  ghost predicate StepOf(w: World, w': World, i: NodeId) {
    && i in w.nodes && w'.nodes.Keys == w.nodes.Keys && (forall j <- w.nodes | j != i :: w'.nodes[j] == w.nodes[j])
    && w'.nodes[i].id == w.nodes[i].id
    && (forall p <- Unfinished(w'.nodes[i]) :: p in Unfinished(w.nodes[i]) || p !in w.nodes)
    && (forall m <- w'.inFlight :: m in w.inFlight || m.from == w.nodes[i].id)
  }

  lemma StepKeepsNames(w: World, w': World, i: NodeId)
    requires NamesOk(w) && StepOf(w, w', i)
    ensures NamesOk(w')
  {
    hide Unfinished;
    forall j <- w'.nodes
      ensures w'.nodes[j].id == j && Unfinished(w'.nodes[j]) !! w'.nodes.Keys
    {
      assert Unfinished(w.nodes[j]) !! w.nodes.Keys;
    }
  }

  lemma ProcessingKeepsNames(n: Node, m: Message, e: nat)
    requires WellFormed(n)
    ensures
      var h := ProcessHeader(n, m);
      && h.id == n.id && WellFormed(h) && Unfinished(h) <= Unfinished(n)
      && ProcessPing(h, m, e).id == n.id && WellFormed(ProcessPing(h, m, e))
      && Unfinished(ProcessPing(h, m, e)) <= Unfinished(n)
      && (m.payload.Update? ==>
            var u := ProcessUpdate(h, m);
            u.id == n.id && WellFormed(u) && Unfinished(u) <= Unfinished(n))
  {
  }

  lemma InstallIsStep(w: World, w': World, n: Node)
    requires Known(w, n.id) && w'.nodes == w.nodes[n.id := n] && Unfinished(n) <= Unfinished(w.nodes[n.id])
    requires forall m <- w'.inFlight :: m in w.inFlight || m.from == n.id
    ensures StepOf(w, w', n.id)
  {
    hide Unfinished;
  }

  lemma DeliverIsStep(w: World, m: Message, c: VoteChecks, again: bool)
    requires Known(w, m.to)
    ensures StepOf(w, DeliverTo(w, m, c, again), m.to)
  {
    hide StepOf, DeliverTo;
    if m.payload.AuthRequest? || m.payload.AuthAck? {
      DeliverVoteIsStep(w, m, c, again);
    } else {
      DeliverConfigIsStep(w, m, c, again);
    }
  }

  lemma DeliverVoteIsStep(w: World, m: Message, c: VoteChecks, again: bool)
    requires Known(w, m.to) && (m.payload.AuthRequest? || m.payload.AuthAck?)
    ensures StepOf(w, DeliverTo(w, m, c, again), m.to)
  {
    hide ProcessHeader, GrantsVote, CountsAck, StepOf, Unfinished;
    var n := w.nodes[m.to];
    ProcessingKeepsNames(n, m, SenderConfigEpoch(n, m));
    SameTable(ProcessHeader(n, m));
    var w' := DeliverTo(w, m, c, again);
    InstallIsStep(w, w', w'.nodes[m.to]);
  }

  lemma DeliverConfigIsStep(w: World, m: Message, c: VoteChecks, again: bool)
    requires Known(w, m.to) && (m.payload.Ping? || m.payload.Update?)
    ensures StepOf(w, DeliverTo(w, m, c, again), m.to)
  {
    hide ProcessHeader, ProcessPing, ProcessUpdate, StepOf, Unfinished;
    var n := w.nodes[m.to];
    ProcessingKeepsNames(n, m, SenderConfigEpoch(n, m));
    var w' := DeliverTo(w, m, c, again);
    InstallIsStep(w, w', w'.nodes[m.to]);
  }

  lemma SameTable(n: Node)
    ensures Unfinished(n.(lastVoteEpoch := n.currentEpoch)) == Unfinished(n)
    ensures Unfinished(n.(authCount := n.authCount + 1)) == Unfinished(n)
  {
  }

  lemma LocalIsStep(w: World, a: Action)
    requires !a.Deliver? && !a.Drop? && Known(w, a.n)
    ensures StepOf(w, ApplyAt(w, a, w.nodes[a.n]), a.n)
  {
    hide StepOf, ApplyAt;
    if a.Meet? || a.Observe? {
      PeerStep(w, a);
    } else if a.EndHandshake? || a.Forget? {
      TableStep(w, a);
    } else if a.SendPing? || a.SendUpdate? || a.StartElection? {
      SendingStep(w, a);
    } else {
      OtherStep(w, a);
    }
  }

  lemma PeerStep(w: World, a: Action)
    requires (a.Meet? || a.Observe?) && Known(w, a.n)
    ensures StepOf(w, ApplyAt(w, a, w.nodes[a.n]), a.n)
  {
  }

  lemma TableStep(w: World, a: Action)
    requires (a.EndHandshake? || a.Forget?) && Known(w, a.n)
    ensures StepOf(w, ApplyAt(w, a, w.nodes[a.n]), a.n)
  {
  }

  lemma SendingStep(w: World, a: Action)
    requires (a.SendPing? || a.SendUpdate? || a.StartElection?) && Known(w, a.n)
    ensures StepOf(w, ApplyAt(w, a, w.nodes[a.n]), a.n)
  {
  }

  lemma OtherStep(w: World, a: Action)
    requires (a.Schedule? || a.CheckQuorum? || a.Bump? || a.SetConfigEpoch? || a.Resize?) && Known(w, a.n)
    ensures StepOf(w, ApplyAt(w, a, w.nodes[a.n]), a.n)
  {
  }

  lemma ApplyKeepsNames(w: World, a: Action)
    requires NamesOk(w)
    ensures NamesOk(Apply(w, a))
  {
    hide ApplyAt, DeliverTo, StepOf, Unfinished;
    match a
    case Deliver(m, c, again) =>
      if m in w.inFlight && Known(w, m.to) {
        DeliverIsStep(w, m, c, again);
        StepKeepsNames(w, DeliverTo(w, m, c, again), m.to);
      }
    case Drop(m) =>
    case _ =>
      if Known(w, a.n) {
        LocalIsStep(w, a);
        StepKeepsNames(w, ApplyAt(w, a, w.nodes[a.n]), a.n);
      }
  }
}
