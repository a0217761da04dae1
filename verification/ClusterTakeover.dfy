/** What winning an election does to the winner, and to configuration epochs over whole runs. */
module ClusterTakeover {
  import opened Prelude
  import opened ClusterBus
  import opened ClusterElection
  import opened ClusterElectionRuns

  /** A replica of some master that asked for votes and counted more than half of the masters. */
  predicate HasMajority(n: Node)
    requires WellFormed(n)
  {
    !Self(n).master && Self(n).slaveof != None && n.authSent && 2 * n.authCount > n.size
  }

  /** The check makes a replica with a majority a master that serves slots, under the epoch of its election unless its
      own is greater already, and records the win; nothing else changes. Otherwise nothing changes at all. */
  lemma MajorityTakesOver(w: World, i: NodeId)
    requires Known(w, i)
    ensures
      var n, w' := w.nodes[i], Apply(w, CheckQuorum(i));
      if HasMajority(n) then
        && i in w'.nodes && w'.nodes == w.nodes[i := w'.nodes[i]]
        && w'.inFlight == w.inFlight && w'.votes == w.votes && w'.counted == w.counted
        && w'.wins == w.wins + {Win(i, n.authEpoch, n.size, w.counted[i])}
        && var n' := w'.nodes[i];
        && n' == n.(peers := n'.peers) && n'.peers.Keys == n.peers.Keys
        && (forall p <- n.peers | p != i :: n'.peers[p] == n.peers[p])
        && n'.peers[i].master && n'.peers[i].serving && n'.peers[i].slaveof == None
        && n'.peers[i].configEpoch >= n.authEpoch && n'.peers[i].configEpoch >= n.peers[i].configEpoch
        && n'.peers[i].configEpoch in {n.authEpoch, n.peers[i].configEpoch}
      else w' == w
  {
  }

  // ---------------------------------------------------------------------------
  // Over runs
  // ---------------------------------------------------------------------------

  /** Wins and the epochs a node had are never forgotten. */
  ghost predicate Remembers(w: World, w': World) {
    && w.wins <= w'.wins
    && forall i <- w.held :: i in w'.held && w.held[i] <= w'.held[i]
  }

  lemma DeliveryRemembers(w: World, m: Message, c: VoteChecks, again: bool)
    requires Known(w, m.to)
    ensures Remembers(w, DeliverTo(w, m, c, again)) && DeliverTo(w, m, c, again).wins == w.wins
  {
    hide ProcessPing, ProcessUpdate, GrantsVote, CountsAck;
  }

  lemma ApplyRemembers(w: World, a: Action)
    ensures Remembers(w, Apply(w, a))
  {
    hide DeliverTo, TakeOver, FinishHandshake, BumpEpoch;
    if a.Deliver? && a.m in w.inFlight && Known(w, a.m.to) {
      DeliveryRemembers(w, a.m, a.checks, a.again);
    }
  }

  lemma {:induction false} RunRemembers(w: World, actions: seq<Action>)
    ensures Remembers(w, Run(w, actions))
    decreases |actions|
  {
    hide Apply;
    if actions != [] {
      ApplyRemembers(w, actions[0]);
      RunRemembers(Apply(w, actions[0]), actions[1..]);
    }
  }

  /** Whoever won an election had an epoch of at least that election's. */
  ghost predicate WinHeld(w: World, x: Win) {
    x.candidate in w.held && exists e <- w.held[x.candidate] :: e >= x.epoch
  }

  lemma ApplyHoldsNewWin(w: World, a: Action, x: Win)
    requires x !in w.wins && x in Apply(w, a).wins
    ensures WinHeld(Apply(w, a), x)
  {
    if a.Deliver? && a.m in w.inFlight && Known(w, a.m.to) {
      DeliveryRemembers(w, a.m, a.checks, a.again);
    }
    assert a.CheckQuorum? && Known(w, a.n) && x.candidate == a.n;
    MajorityTakesOver(w, a.n);
    var w' := Apply(w, a);
    assert w'.nodes[a.n].peers[a.n].configEpoch in w'.held[a.n];
  }

  lemma {:induction false} WinnersHadTheirEpoch(w: World, actions: seq<Action>, x: Win)
    requires x !in w.wins && x in Run(w, actions).wins
    ensures WinHeld(Run(w, actions), x)
    decreases |actions|
  {
    hide Apply;
    assert actions != [];
    var w' := Apply(w, actions[0]);
    if x in w'.wins {
      ApplyHoldsNewWin(w, actions[0], x);
      RunRemembers(w', actions[1..]);
    } else {
      WinnersHadTheirEpoch(w', actions[1..], x);
    }
  }

  /** The win that a check after the first k actions of a run records. */
  function WinAt(w: World, i: NodeId): Win
    requires Known(w, i)
  {
    Win(i, w.nodes[i].authEpoch, w.nodes[i].size, w.counted[i])
  }

  /** After k actions node i, whose own epoch is below its election's, has a majority, and the check is next. */
  ghost predicate TakesOverAt(w: World, actions: seq<Action>, k: nat, i: NodeId) {
    && k < |actions| && actions[k] == CheckQuorum(i)
    && var wk := Run(w, actions[..k]);
    Known(wk, i) && HasMajority(wk.nodes[i]) && Self(wk.nodes[i]).configEpoch < wk.nodes[i].authEpoch
  }

  lemma TakeoverIsRecorded(w: World, actions: seq<Action>, k: nat, i: NodeId)
    requires TakesOverAt(w, actions, k, i)
    ensures
      var wk, next := Run(w, actions[..k]), Run(w, actions[..k + 1]);
      && WinAt(wk, i) in Run(w, actions).wins
      && i in next.nodes && WellFormed(next.nodes[i]) && Self(next.nodes[i]).configEpoch == wk.nodes[i].authEpoch
  {
    var wk := Run(w, actions[..k]);
    MajorityTakesOver(wk, i);
    hide Apply, HasMajority;
    var none: seq<Action> := [];
    assert [actions[k]][1..] == none;
    assert Run(wk, [actions[k]]) == Run(Apply(wk, actions[k]), none) == Apply(wk, actions[k]);
    assert actions[..k + 1] == actions[..k] + [actions[k]];
    RunConcat(w, actions[..k], [actions[k]]);
    assert actions == actions[..k + 1] + actions[k + 1..];
    RunConcat(w, actions[..k + 1], actions[k + 1..]);
    RunRemembers(Run(w, actions[..k + 1]), actions[k + 1..]);
  }

  /** In a run whose elections start with a zero count, two replicas that take their quorum over the same masters never
      take the same configEpoch from their elections. */
  lemma WinnersTakeDifferentEpochs(w: World, actions: seq<Action>, k: nat, i: NodeId, l: nat, j: NodeId,
      voters: set<NodeId>)
    requires Initial(w) && AllStartsClean(w, actions) && i != j
    requires TakesOverAt(w, actions, k, i) && TakesOverAt(w, actions, l, j)
    requires AgreeOnVoters(WinAt(Run(w, actions[..k]), i), WinAt(Run(w, actions[..l]), j), voters)
    ensures
      var wi, wj := Run(w, actions[..k + 1]), Run(w, actions[..l + 1]);
      && i in wi.nodes && WellFormed(wi.nodes[i]) && j in wj.nodes && WellFormed(wj.nodes[j])
      && Self(wi.nodes[i]).configEpoch != Self(wj.nodes[j]).configEpoch
  {
    hide Run, AgreeOnVoters, HasMajority, Initial;
    TakeoverIsRecorded(w, actions, k, i);
    TakeoverIsRecorded(w, actions, l, j);
    ElectionSafety(w, actions, WinAt(Run(w, actions[..k]), i), WinAt(Run(w, actions[..l]), j), voters);
  }
}
