/** Election safety from what the winners' own tables say about the masters while they count. */
module ClusterVoters {
  import opened Prelude
  import opened ClusterBus
  import opened ClusterElection
  import opened ClusterElectionRuns

  /** The table has no serving master outside the set, besides the node itself, and no quorum is taken over fewer. */
  ghost predicate TableAgrees(n: Node, voters: set<NodeId>) {
    && |voters| <= n.size
    && forall p <- n.peers :: p != n.id && n.peers[p].master && n.peers[p].serving ==> p in voters
  }

  /** The node stands for the epoch of the win. */
  predicate Stands(w: World, x: Win) {
    x.candidate in w.nodes && w.nodes[x.candidate].authEpoch == x.epoch
  }

  ghost predicate AgreesFor(w: World, voters: set<NodeId>, x: Win) {
    Stands(w, x) ==> TableAgrees(w.nodes[x.candidate], voters)
  }

  /** From the start of its election until it wins, the winner's table agrees with the set; nothing is said about any
      other node, nor about the winner at other times. */
  ghost predicate AgreesWhileCounting(w: World, actions: seq<Action>, voters: set<NodeId>, x: Win)
    decreases |actions|
  {
    || x in w.wins
    || (AgreesFor(w, voters, x) &&
        (actions == [] || AgreesWhileCounting(Apply(w, actions[0]), actions[1..], voters, x)))
  }

  /** What the candidate has counted for the epoch, and what the win has, comes from the set, and nobody votes for
      itself. */
  ghost predicate VotersOk(w: World, voters: set<NodeId>, x: Win) {
    && (Stands(w, x) && x.candidate in w.counted ==> Voters(w.counted[x.candidate]) <= voters)
    && (x in w.wins ==> Voters(x.ballots) <= voters && |voters| <= x.size)
    && (forall m <- w.inFlight :: m.payload.AuthAck? ==> m.from != m.to)
  }

  lemma AckKeepsVoters(w0: World, m: Message, c: VoteChecks, again: bool, voters: set<NodeId>, x: Win)
    requires VotersOk(w0, voters, x) && AgreesFor(w0, voters, x) && m in w0.inFlight && Known(w0, m.to)
    requires m.payload.AuthAck?
    ensures VotersOk(DeliverTo(w0, m, c, again), voters, x)
  {
    var n := ProcessHeader(w0.nodes[m.to], m);
    var w' := DeliverTo(w0, m, c, again);
    if m.to == x.candidate && Stands(w0, x) && CountsAck(n, m, SenderCurrentEpoch(w0.nodes[m.to], m)) {
      assert m.from in voters;
      assert Voters(w'.counted[n.id]) == Voters(w0.counted[n.id]) + {m.from};
    }
  }

  /** Candidates, counts and wins are the same, and no node acknowledged its own request. */
  ghost predicate SameElection(w: World, w': World) {
    && w'.counted == w.counted && w'.wins == w.wins && w'.nodes.Keys == w.nodes.Keys
    && (forall i <- w.nodes :: w'.nodes[i].authEpoch == w.nodes[i].authEpoch)
    && (forall m <- w'.inFlight :: m in w.inFlight || (m.payload.AuthAck? ==> m.from != m.to))
  }

  lemma OtherDeliveryKeepsVoters(w0: World, m: Message, c: VoteChecks, again: bool, voters: set<NodeId>, x: Win)
    requires VotersOk(w0, voters, x) && m in w0.inFlight && Known(w0, m.to) && !m.payload.AuthAck?
    ensures VotersOk(DeliverTo(w0, m, c, again), voters, x)
  {
    hide Voters, DeliverTo;
    OtherDeliveryKeepsElection(w0, m, c, again);
  }

  lemma OtherDeliveryKeepsElection(w0: World, m: Message, c: VoteChecks, again: bool)
    requires m in w0.inFlight && Known(w0, m.to) && !m.payload.AuthAck?
    ensures SameElection(w0, DeliverTo(w0, m, c, again))
  {
    hide ProcessHeader, ProcessPing, ProcessUpdate;
    var n := ProcessHeader(w0.nodes[m.to], m);
    HeaderKeepsElection(w0.nodes[m.to], m);
    PingKeepsElection(n, m, SenderConfigEpoch(w0.nodes[m.to], m));
    if m.payload.Update? { UpdateKeepsElection(n, m); }
    assert GrantsVote(n, m, c) ==> m.from != m.to;
  }

  lemma HeaderKeepsElection(n: Node, m: Message)
    requires WellFormed(n)
    ensures WellFormed(ProcessHeader(n, m))
    ensures ProcessHeader(n, m).id == n.id && ProcessHeader(n, m).authEpoch == n.authEpoch
  {
  }

  lemma PingKeepsElection(n: Node, m: Message, epoch: nat)
    requires WellFormed(n)
    ensures ProcessPing(n, m, epoch).id == n.id && ProcessPing(n, m, epoch).authEpoch == n.authEpoch
  {
  }

  lemma UpdateKeepsElection(n: Node, m: Message)
    requires m.payload.Update?
    ensures ProcessUpdate(n, m).id == n.id && ProcessUpdate(n, m).authEpoch == n.authEpoch
  {
  }

  /** An election starts with no ballot counted, and a win is recorded while the candidate's table agrees. */
  lemma LocalStepKeepsVoters(w: World, a: Action, voters: set<NodeId>, x: Win)
    requires VotersOk(w, voters, x) && AgreesFor(w, voters, x) && !a.Deliver? && !a.Drop? && Known(w, a.n)
    requires StartsClean(w, a) && w.nodes[a.n].authCount == |w.counted[a.n]|
    ensures VotersOk(ApplyAt(w, a, w.nodes[a.n]), voters, x)
  {
    hide Voters, FinishHandshake, BumpEpoch;
    NoVoters();
    if !a.Schedule? && !a.StartElection? && !a.CheckQuorum? {
      TableStepKeepsElection(w, a);
      hide ApplyAt;
    }
  }

  /** Every other step leaves candidates, counts and wins alone. */
  lemma TableStepKeepsElection(w: World, a: Action)
    requires !a.Deliver? && !a.Drop? && !a.Schedule? && !a.StartElection? && !a.CheckQuorum? && Known(w, a.n)
    ensures SameElection(w, ApplyAt(w, a, w.nodes[a.n]))
  {
  }

  lemma NoVoters()
    ensures Voters({}) == {}
  {
  }

  lemma ApplyKeepsVoters(w: World, a: Action, voters: set<NodeId>, x: Win)
    requires VotersOk(w, voters, x) && AgreesFor(w, voters, x) && ElectionInv(w) && StartsClean(w, a)
    ensures VotersOk(Apply(w, a), voters, x)
  {
    hide DeliverTo, ApplyAt, AgreesFor, StartsClean;
    match a
    case Deliver(m, c, again) =>
      if m in w.inFlight && Known(w, m.to) {
        if m.payload.AuthAck? {
          AckKeepsVoters(w, m, c, again, voters, x);
        } else {
          OtherDeliveryKeepsVoters(w, m, c, again, voters, x);
        }
      }
    case Drop(m) =>
    case _ =>
      if Known(w, a.n) {
        assert NodeOk(w.nodes[a.n], a.n, w.counted[a.n]);
        LocalStepKeepsVoters(w, a, voters, x);
      }
  }

  /** A win stays recorded. */
  lemma {:induction false} WinIsOverVoters(w: World, actions: seq<Action>, voters: set<NodeId>, x: Win)
    requires VotersOk(w, voters, x) && ElectionInv(w) && AllStartsClean(w, actions)
    requires AgreesWhileCounting(w, actions, voters, x) && x in Run(w, actions).wins
    ensures Voters(x.ballots) <= voters && |voters| <= x.size
    decreases |actions|
  {
    hide ElectionInv, Apply, StartsClean, AgreesFor;
    if x !in w.wins {
      assert actions != [];
      ApplyKeepsVoters(w, actions[0], voters, x);
      ApplyKeepsInv(w, actions[0]);
      WinIsOverVoters(Apply(w, actions[0]), actions[1..], voters, x);
    }
  }

  /** In a run whose elections start with a zero count, no epoch has two winners whose tables agreed on the masters
      while they counted. */
  lemma AgreedTablesAreSafe(w: World, actions: seq<Action>, voters: set<NodeId>, x: Win, y: Win)
    requires Initial(w) && AllStartsClean(w, actions)
    requires AgreesWhileCounting(w, actions, voters, x) && AgreesWhileCounting(w, actions, voters, y)
    requires x in Run(w, actions).wins && y in Run(w, actions).wins
    ensures x.epoch == y.epoch ==> x.candidate == y.candidate
  {
    assert VotersOk(w, voters, x) && VotersOk(w, voters, y) by { NoVoters(); }
    InitialInv(w);
    hide Run, Voters, ElectionInv, Initial;
    WinIsOverVoters(w, actions, voters, x);
    WinIsOverVoters(w, actions, voters, y);
    ElectionSafety(w, actions, x, y, voters);
  }
}
