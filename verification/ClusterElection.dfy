/**
 Failover elections: no two replicas win the same epoch.

 Each master grants at most one ballot per epoch, so the ballots behind two wins of one epoch
 are disjoint, and two majorities of the same masters cannot be disjoint. The one gap is in the
 code itself: scheduling a new attempt zeroes the count without changing the epoch the acks are
 compared with, so a late ack of the previous attempt can be counted towards the next one.
 */
module ClusterElection {
  import opened Prelude
  import opened ClusterBus

  // ---------------------------------------------------------------------------
  // The inductive invariant
  // ---------------------------------------------------------------------------

  ghost predicate NodeOk(n: Node, id: NodeId, counted: set<Ballot>) {
    && n.id == id && WellFormed(n)
    && n.lastVoteEpoch <= n.currentEpoch
    && n.authEpoch <= n.currentEpoch
    && n.authCount == |counted|
  }

  ghost predicate NodesOk(w: World) {
    && w.counted.Keys == w.nodes.Keys
    && forall i <- w.nodes :: NodeOk(w.nodes[i], i, w.counted[i])
  }

  /** A ballot is never from an epoch later than its voter's last vote, which is why votes are unique. */
  ghost predicate VotesOk(w: World) {
    forall b <- w.votes :: b.voter in w.nodes && b.epoch <= w.nodes[b.voter].lastVoteEpoch
  }

  ghost predicate Given(w: World, b: Ballot, candidate: NodeId) {
    b in w.votes && w.votes[b] == candidate
  }

  /** Every ack in flight is a ballot given to its receiver and not counted yet. */
  ghost predicate MessageOk(w: World, m: Message) {
    && m.to in w.nodes
    && (m.payload.AuthRequest? ==>
          m.from in w.nodes && m.currentEpoch <= w.nodes[m.from].authEpoch)
    && (m.payload.AuthAck? ==>
          && Given(w, Ballot(m.from, m.currentEpoch), m.to)
          && m.currentEpoch <= w.nodes[m.to].authEpoch
          && m.to in w.counted && Ballot(m.from, m.currentEpoch) !in w.counted[m.to])
  }

  /** At most one ack per ballot is in flight. */
  ghost predicate AcksUnique(w: World) {
    forall m <- w.inFlight, k <- w.inFlight ::
      m.payload.AuthAck? && k.payload.AuthAck? && m.from == k.from && m.currentEpoch == k.currentEpoch ==> m == k
  }

  ghost predicate CountedOk(w: World, i: NodeId)
    requires i in w.nodes && i in w.counted
  {
    forall b <- w.counted[i] :: Given(w, b, i) && b.epoch <= w.nodes[i].authEpoch
  }

  ghost predicate WinOk(w: World, x: Win) {
    && |x.ballots| >= Quorum(x.size)
    && forall b <- x.ballots :: Given(w, b, x.candidate) && b.epoch <= x.epoch
  }

  ghost predicate MessagesOk(w: World) {
    forall m <- w.inFlight :: MessageOk(w, m)
  }

  ghost predicate CountsOk(w: World)
    requires w.counted.Keys == w.nodes.Keys
  {
    forall i <- w.nodes :: CountedOk(w, i)
  }

  ghost predicate WinsOk(w: World) {
    forall x <- w.wins :: WinOk(w, x)
  }

  ghost predicate ElectionInv(w: World) {
    && NodesOk(w)
    && VotesOk(w)
    && MessagesOk(w)
    && AcksUnique(w)
    && CountsOk(w)
    && WinsOk(w)
  }

  // ---------------------------------------------------------------------------
  // Every step keeps it
  // ---------------------------------------------------------------------------

  /** How far a step may move one node's election variables when it grants and counts nothing. */
  ghost predicate Advances(n: Node, n': Node) {
    && n'.id == n.id && WellFormed(n')
    && n.currentEpoch <= n'.currentEpoch
    && n'.lastVoteEpoch == n.lastVoteEpoch
    && n.authEpoch <= n'.authEpoch <= n'.currentEpoch
    && n'.authCount == n.authCount
  }

  /** The history only grows and the epochs only rise. */
  ghost predicate Extends(w: World, w': World) {
    && w'.nodes.Keys == w.nodes.Keys && w'.counted.Keys == w.counted.Keys
    && (forall i <- w.nodes :: w.nodes[i].authEpoch <= w'.nodes[i].authEpoch)
    && (forall b <- w.votes :: b in w'.votes && w'.votes[b] == w.votes[b])
  }

  /** No ack in flight is in its receiver's count already. */
  ghost predicate AcksUncounted(w: World) {
    forall m <- w.inFlight | m.payload.AuthAck? && m.to in w.counted ::
      Ballot(m.from, m.currentEpoch) !in w.counted[m.to]
  }

  /** What a count holds after a step was in it before, or is a ballot given to the node. */
  ghost predicate CountedFrom(w: World, w': World, i: NodeId)
    requires i in w.counted && i in w'.counted && i in w'.nodes
  {
    forall b <- w'.counted[i] :: b in w.counted[i] || (Given(w', b, i) && b.epoch <= w'.nodes[i].authEpoch)
  }

  lemma KeepsMessages(w: World, w': World)
    requires Extends(w, w') && MessagesOk(w) && w'.inFlight <= w.inFlight && AcksUncounted(w')
    ensures MessagesOk(w')
  {
    forall m <- w'.inFlight
      ensures MessageOk(w', m)
    {
      assert MessageOk(w, m);
    }
  }

  lemma KeepsWins(w: World, w': World)
    requires Extends(w, w') && WinsOk(w) && w'.wins <= w.wins
    ensures WinsOk(w')
  {
    forall x <- w'.wins
      ensures WinOk(w', x)
    {
      assert WinOk(w, x);
    }
  }

  lemma KeepsCounts(w: World, w': World)
    requires w.counted.Keys == w.nodes.Keys && Extends(w, w') && CountsOk(w)
    requires forall i <- w.nodes :: CountedFrom(w, w', i)
    ensures CountsOk(w')
  {
    forall i <- w'.nodes
      ensures CountedOk(w', i)
    {
      assert CountedOk(w, i) && CountedFrom(w, w', i);
    }
  }

  /** A step that sends nothing and wins nothing. */
  lemma StepKeepsInv(w: World, w': World)
    requires ElectionInv(w) && Extends(w, w') && NodesOk(w') && VotesOk(w')
    requires w'.inFlight <= w.inFlight && w'.wins <= w.wins
    requires AcksUncounted(w') && forall i <- w.nodes :: CountedFrom(w, w', i)
    ensures ElectionInv(w')
  {
    KeepsMessages(w, w');
    KeepsWins(w, w');
    KeepsCounts(w, w');
  }

  lemma QuietStepKeepsInv(w: World, w': World)
    requires ElectionInv(w) && Extends(w, w') && NodesOk(w') && VotesOk(w')
    requires w'.inFlight <= w.inFlight && w'.wins <= w.wins
    requires forall i <- w.nodes :: w'.counted[i] <= w.counted[i]
    ensures ElectionInv(w')
  {
    forall m <- w'.inFlight | m.payload.AuthAck? && m.to in w'.counted
      ensures Ballot(m.from, m.currentEpoch) !in w'.counted[m.to]
    {
      assert MessageOk(w, m);
    }
    StepKeepsInv(w, w');
  }

  lemma PutKeepsInv(w: World, n: Node)
    requires ElectionInv(w) && n.id in w.nodes && Advances(w.nodes[n.id], n)
    ensures ElectionInv(Put(w, n))
  {
    var w' := Put(w, n);
    PutKeepsNodes(w, n);
    QuietStepKeepsInv(w, w');
  }

  lemma PutKeepsNodes(w: World, n: Node)
    requires NodesOk(w) && VotesOk(w) && n.id in w.nodes && Advances(w.nodes[n.id], n)
    ensures NodesOk(Put(w, n)) && VotesOk(Put(w, n)) && Extends(w, Put(w, n))
  {
    assert Put(w, n).nodes.Keys == w.nodes.Keys;
  }

  lemma DropKeepsInv(w: World, m: Message)
    requires ElectionInv(w)
    ensures ElectionInv(w.(inFlight := w.inFlight - {m}))
  {
    QuietStepKeepsInv(w, w.(inFlight := w.inFlight - {m}));
  }

  lemma SendKeepsInv(w: World, ms: set<Message>)
    requires ElectionInv(w)
    requires forall m <- ms :: MessageOk(w, m)
    requires forall m <- ms, k <- w.inFlight + ms :: m.payload.AuthAck? && k.payload.AuthAck? ==>
               m == k || Ballot(k.from, k.currentEpoch) != Ballot(m.from, m.currentEpoch)
    ensures ElectionInv(w.(inFlight := w.inFlight + ms))
  {
    var w' := w.(inFlight := w.inFlight + ms);
    forall m <- w'.inFlight
      ensures MessageOk(w', m)
    {
      assert MessageOk(w, m);
    }
    KeepsWins(w, w');
    KeepsCounts(w, w');
  }

  /** Granting a vote: the ballot is new because lastVoteEpoch is behind currentEpoch. */
  lemma GrantKeepsInv(w: World, n: Node, candidate: NodeId)
    requires ElectionInv(w) && n.id in w.nodes && Advances(w.nodes[n.id], n)
    requires n.lastVoteEpoch != n.currentEpoch
    requires candidate in w.nodes && n.currentEpoch <= w.nodes[candidate].authEpoch
    ensures
      var voted := n.(lastVoteEpoch := n.currentEpoch);
      ElectionInv(Send(Put(w, voted).(votes := w.votes[Ballot(n.id, n.currentEpoch) := candidate]),
                       Header(voted, candidate, AuthAck)))
  {
    var b := Ballot(n.id, n.currentEpoch);
    var voted := n.(lastVoteEpoch := n.currentEpoch);
    var w' := Put(w, voted).(votes := w.votes[b := candidate]);
    GrantKeepsNodes(w, n, candidate);
    QuietStepKeepsInv(w, w');
    BallotIsNew(w, b, candidate);
    SendAckKeepsInv(w', Header(voted, candidate, AuthAck));
  }

  lemma SendAckKeepsInv(w: World, m: Message)
    requires ElectionInv(w) && MessageOk(w, m)
    requires forall k <- w.inFlight | k.payload.AuthAck? ::
      Ballot(k.from, k.currentEpoch) != Ballot(m.from, m.currentEpoch)
    ensures ElectionInv(Send(w, m))
  {
    hide ElectionInv;
    SendKeepsInv(w, {m});
  }

  /** A ballot not given yet is neither counted nor in flight. */
  lemma BallotIsNew(w: World, b: Ballot, candidate: NodeId)
    requires ElectionInv(w) && b !in w.votes && candidate in w.nodes
    ensures b !in w.counted[candidate]
    ensures forall k <- w.inFlight | k.payload.AuthAck? :: Ballot(k.from, k.currentEpoch) != b
  {
    assert CountedOk(w, candidate);
    forall k <- w.inFlight | k.payload.AuthAck?
      ensures Ballot(k.from, k.currentEpoch) != b
    {
      assert MessageOk(w, k);
    }
  }

  lemma GrantKeepsNodes(w: World, n: Node, candidate: NodeId)
    requires NodesOk(w) && VotesOk(w) && n.id in w.nodes && Advances(w.nodes[n.id], n)
    requires n.lastVoteEpoch != n.currentEpoch
    ensures
      var b := Ballot(n.id, n.currentEpoch);
      var w' := Put(w, n.(lastVoteEpoch := n.currentEpoch)).(votes := w.votes[b := candidate]);
      b !in w.votes && NodesOk(w') && VotesOk(w') && Extends(w, w')
  {
    var b := Ballot(n.id, n.currentEpoch);
    var w' := Put(w, n.(lastVoteEpoch := n.currentEpoch)).(votes := w.votes[b := candidate]);
    assert b !in w.votes;
    assert w'.nodes.Keys == w.nodes.Keys;
  }

  /** Counting an ack: at-most-once delivery makes the ballot new in the count. */
  lemma CountKeepsInv(w: World, n: Node, b: Ballot)
    requires ElectionInv(w) && n.id in w.nodes && Advances(w.nodes[n.id], n)
    requires Given(w, b, n.id) && b.epoch <= n.authEpoch && b !in w.counted[n.id]
    requires forall m <- w.inFlight | m.payload.AuthAck? && m.to == n.id :: Ballot(m.from, m.currentEpoch) != b
    ensures ElectionInv(Put(w, n.(authCount := n.authCount + 1))
                        .(counted := w.counted[n.id := w.counted[n.id] + {b}]))
  {
    CountKeepsNodes(w, n, b);
    var w' := Put(w, n.(authCount := n.authCount + 1)).(counted := w.counted[n.id := w.counted[n.id] + {b}]);
    CountKeepsAcks(w, w', n.id, b);
    StepKeepsInv(w, w');
  }

  lemma CountKeepsAcks(w: World, w': World, id: NodeId, b: Ballot)
    requires MessagesOk(w) && id in w.counted && w'.inFlight == w.inFlight
    requires w'.counted == w.counted[id := w.counted[id] + {b}]
    requires forall m <- w.inFlight | m.payload.AuthAck? && m.to == id :: Ballot(m.from, m.currentEpoch) != b
    ensures AcksUncounted(w')
  {
    forall m <- w'.inFlight | m.payload.AuthAck? && m.to in w'.counted
      ensures Ballot(m.from, m.currentEpoch) !in w'.counted[m.to]
    {
      assert MessageOk(w, m);
    }
  }

  lemma CountKeepsNodes(w: World, n: Node, b: Ballot)
    requires NodesOk(w) && VotesOk(w) && n.id in w.nodes && Advances(w.nodes[n.id], n) && b !in w.counted[n.id]
    ensures
      var w' := Put(w, n.(authCount := n.authCount + 1)).(counted := w.counted[n.id := w.counted[n.id] + {b}]);
      NodesOk(w') && VotesOk(w') && Extends(w, w')
  {
    var w' := Put(w, n.(authCount := n.authCount + 1)).(counted := w.counted[n.id := w.counted[n.id] + {b}]);
    assert w'.nodes.Keys == w.nodes.Keys;
  }

  lemma HeaderAdvances(n: Node, m: Message)
    requires WellFormed(n) && n.authEpoch <= n.currentEpoch
    ensures Advances(n, ProcessHeader(n, m))
  {
  }

  lemma PingAdvances(n: Node, m: Message, e: nat)
    requires WellFormed(n) && n.authEpoch <= n.currentEpoch
    ensures Advances(n, ProcessPing(n, m, e))
  {
  }

  lemma DeliverAckKeepsInv(w: World, m: Message, n: Node)
    requires ElectionInv(w) && m in w.inFlight && m.payload.AuthAck? && n.id == m.to && Advances(w.nodes[m.to], n)
    ensures
      var taken := w.(inFlight := w.inFlight - {m});
      ElectionInv(Put(taken, n.(authCount := n.authCount + 1))
                  .(counted := w.counted[n.id := w.counted[n.id] + {Ballot(m.from, m.currentEpoch)}]))
  {
    DropKeepsInv(w, m);
    assert MessageOk(w, m);
    CountKeepsInv(w.(inFlight := w.inFlight - {m}), n, Ballot(m.from, m.currentEpoch));
  }

  lemma DeliverKeepsInv(w0: World, m: Message, c: VoteChecks, again: bool)
    requires ElectionInv(w0) && m in w0.inFlight && Known(w0, m.to)
    requires MessageOk(w0, m) && w0.nodes[m.to].authEpoch <= w0.nodes[m.to].currentEpoch
    ensures ElectionInv(DeliverTo(w0, m, c, again))
  {
    hide ElectionInv;
    DropKeepsInv(w0, m);
    var w := if again && !m.payload.AuthAck? then w0 else w0.(inFlight := w0.inFlight - {m});
    var before := w.nodes[m.to];
    var n := ProcessHeader(before, m);
    HeaderAdvances(before, m);
    match m.payload
    case Ping =>
      PingAdvances(n, m, SenderConfigEpoch(before, m));
      PutKeepsInv(w, ProcessPing(n, m, SenderConfigEpoch(before, m)));
    case Update(_, _) => PutKeepsInv(w, ProcessUpdate(n, m));
    case AuthRequest =>
      if GrantsVote(n, m, c) {
        GrantKeepsInv(w, n, m.from);
      } else {
        PutKeepsInv(w, n);
      }
    case AuthAck =>
      if CountsAck(n, m, SenderCurrentEpoch(before, m)) {
        DeliverAckKeepsInv(w0, m, n);
      } else {
        PutKeepsInv(w, n);
      }
  }

  /** Scheduling an attempt forgets the ballots counted so far. */
  lemma ScheduleKeepsInv(w: World, n: Node)
    requires ElectionInv(w) && n.id in w.nodes && n == w.nodes[n.id]
    ensures ElectionInv(Put(w, n.(authCount := 0, authSent := false)).(counted := w.counted[n.id := {}]))
  {
    ScheduleKeepsNodes(w, n);
    QuietStepKeepsInv(w, Put(w, n.(authCount := 0, authSent := false)).(counted := w.counted[n.id := {}]));
  }

  lemma ScheduleKeepsNodes(w: World, n: Node)
    requires NodesOk(w) && VotesOk(w) && n.id in w.nodes && n == w.nodes[n.id]
    ensures
      var w' := Put(w, n.(authCount := 0, authSent := false)).(counted := w.counted[n.id := {}]);
      NodesOk(w') && VotesOk(w') && Extends(w, w')
  {
    var w' := Put(w, n.(authCount := 0, authSent := false)).(counted := w.counted[n.id := {}]);
    assert w'.nodes.Keys == w.nodes.Keys;
  }

  lemma StartKeepsInv(w: World, n: Node, recipients: set<NodeId>)
    requires ElectionInv(w) && Known(w, n.id) && n == w.nodes[n.id] && n.authEpoch <= n.currentEpoch
    requires MayStandForElection(n) && !n.authSent
    ensures ElectionInv(ApplyAt(w, StartElection(n.id, recipients), n))
  {
    hide ElectionInv;
    var started := n.(currentEpoch := n.currentEpoch + 1, authEpoch := n.currentEpoch + 1, authSent := true);
    PutKeepsInv(w, started);
    SendRequestsKeepsInv(Put(w, started), started, recipients * w.nodes.Keys);
  }

  lemma SendRequestsKeepsInv(w: World, n: Node, recipients: set<NodeId>)
    requires ElectionInv(w) && n.id in w.nodes && n == w.nodes[n.id] && n.authEpoch == n.currentEpoch
    requires recipients <= w.nodes.Keys
    ensures ElectionInv(w.(inFlight := w.inFlight + Requests(n, recipients)))
  {
    SendKeepsInv(w, Requests(n, recipients));
  }

  lemma WinKeepsInv(w: World, n: Node)
    requires ElectionInv(w) && n.id in w.nodes && n == w.nodes[n.id] && PassesQuorum(n)
    ensures ElectionInv(ApplyAt(w, CheckQuorum(n.id), n))
  {
    var x := Win(n.id, n.authEpoch, n.size, w.counted[n.id]);
    assert CountedOk(w, n.id);
    var w1 := w.(wins := w.wins + {x});
    AddWinKeepsInv(w, x);
    PutKeepsInv(w1, TakeOver(n));
    assert Put(w1, TakeOver(n)) == ApplyAt(w, CheckQuorum(n.id), n);
  }

  lemma AddWinKeepsInv(w: World, x: Win)
    requires ElectionInv(w) && WinOk(w, x)
    ensures ElectionInv(w.(wins := w.wins + {x}))
  {
    var w' := w.(wins := w.wins + {x});
    forall y <- w'.wins
      ensures WinOk(w', y)
    {
      assert WinOk(w, y);
    }
    KeepsMessages(w, w');
    KeepsCounts(w, w');
  }

  lemma ApplyKeepsInv(w: World, a: Action)
    requires ElectionInv(w)
    ensures ElectionInv(Apply(w, a))
  {
    match a
    case Deliver(m, c, again) =>
      if m in w.inFlight && Known(w, m.to) { DeliverKeepsInv(w, m, c, again); }
    case Drop(m) => DropKeepsInv(w, m);
    case _ =>
      if Known(w, a.n) {
        LocalStepKeepsInv(w, a, w.nodes[a.n]);
      }
  }

  lemma LocalStepKeepsInv(w: World, a: Action, n: Node)
    requires ElectionInv(w) && !a.Deliver? && !a.Drop? && Known(w, a.n) && n == w.nodes[a.n]
    requires n.authEpoch <= n.currentEpoch
    ensures ElectionInv(ApplyAt(w, a, n))
  {
    hide ElectionInv;
    match a
    case SendPing(_, to) =>
      if to in w.nodes { SendKeepsInv(w, {Header(n, to, Ping)}); }
    case SendUpdate(_, to, about) =>
      if about in n.peers && to in w.nodes {
        SendKeepsInv(w, {Header(n, to, Update(about, n.peers[about].configEpoch))});
      }
    case Schedule(_) =>
      if MayStandForElection(n) { ScheduleKeepsInv(w, n); }
    case StartElection(_, recipients) =>
      if MayStandForElection(n) && !n.authSent { StartKeepsInv(w, n, recipients); }
    case CheckQuorum(_) =>
      if PassesQuorum(n) { WinKeepsInv(w, n); }
    case Bump(_) => PutKeepsInv(w, BumpEpoch(n));
    case SetConfigEpoch(_, epoch) =>
      if n.peers.Keys == {n.id} && Self(n).configEpoch == 0 {
        PutKeepsInv(w, SetPeer(n, n.id, Self(n).(configEpoch := epoch)).(currentEpoch := Max(n.currentEpoch, epoch)));
      }
    case Resize(_, size) => PutKeepsInv(w, n.(size := size));
    case _ => TableStepKeepsInv(w, a, n);
  }

  /** Steps that change which peers a node knows, and what it thinks of them. */
  lemma TableStepKeepsInv(w: World, a: Action, n: Node)
    requires a.Meet? || a.EndHandshake? || a.Forget? || a.Observe?
    requires ElectionInv(w) && Known(w, a.n) && n == w.nodes[a.n]
    ensures ElectionInv(ApplyAt(w, a, n))
  {
    assert NodeOk(n, a.n, w.counted[a.n]);
    hide ElectionInv, ApplyAt;
    var w' := ApplyAt(w, a, n);
    TableStepAdvances(w, a, n);
    if w' != w {
      PutKeepsInv(w, w'.nodes[a.n]);
    }
  }

  lemma TableStepAdvances(w: World, a: Action, n: Node)
    requires a.Meet? || a.EndHandshake? || a.Forget? || a.Observe?
    requires Known(w, a.n) && n == w.nodes[a.n] && n.authEpoch <= n.currentEpoch
    ensures
      var w' := ApplyAt(w, a, n);
      a.n in w'.nodes && WellFormed(w'.nodes[a.n]) && Advances(n, w'.nodes[a.n])
        && (w' == w || w' == Put(w, w'.nodes[a.n]))
  {
  }

  lemma {:induction false} RunKeepsInv(w: World, actions: seq<Action>)
    requires ElectionInv(w)
    ensures ElectionInv(Run(w, actions))
    decreases |actions|
  {
    if actions != [] {
      ApplyKeepsInv(w, actions[0]);
      RunKeepsInv(Apply(w, actions[0]), actions[1..]);
    }
  }

  // ---------------------------------------------------------------------------
  // Safety
  // ---------------------------------------------------------------------------

  function Voters(ballots: set<Ballot>): set<NodeId> {
    set b <- ballots :: b.voter
  }

  /** The ballots of a win that were given in the epoch won, and those left over from an earlier attempt. */
  function Fresh(x: Win): set<Ballot> {
    set b <- x.ballots | b.epoch == x.epoch
  }

  function Stale(x: Win): set<Ballot> {
    x.ballots - Fresh(x)
  }

  /** Both replicas took their quorum over at least the masters of V, and counted no one else's ballot. */
  ghost predicate AgreeOnVoters(x: Win, y: Win, voters: set<NodeId>) {
    && Voters(x.ballots) <= voters && Voters(y.ballots) <= voters
    && |voters| <= x.size && |voters| <= y.size
  }

  lemma VotersCount(ballots: set<Ballot>, epoch: nat)
    requires forall b <- ballots :: b.epoch == epoch
    ensures |Voters(ballots)| == |ballots|
  {
    if ballots != {} {
      var b :| b in ballots;
      VotersCount(ballots - {b}, epoch);
      assert Voters(ballots) == Voters(ballots - {b}) + {b.voter};
      assert b.voter !in Voters(ballots - {b});
    }
  }

  /** In every run, with node tables that disagree and change at will: the masters that voted for one
      winner of an epoch and those that voted for another winner of it are different masters. */
  lemma WinnersOfAnEpochShareNoVoter(w: World, actions: seq<Action>, x: Win, y: Win)
    requires Initial(w) && x in Run(w, actions).wins && y in Run(w, actions).wins
    requires x.epoch == y.epoch && x.candidate != y.candidate
    ensures Voters(Fresh(x)) !! Voters(Fresh(y))
  {
    InitialInv(w);
    RunKeepsInv(w, actions);
    DisjointVoters(Run(w, actions), x, y);
  }

  lemma InitialInv(w: World)
    requires Initial(w)
    ensures ElectionInv(w)
  {
  }

  lemma DisjointVoters(w: World, x: Win, y: Win)
    requires WinOk(w, x) && WinOk(w, y) && x.epoch == y.epoch && x.candidate != y.candidate
    ensures Voters(Fresh(x)) !! Voters(Fresh(y))
  {
    forall v <- Voters(Fresh(x))
      ensures v !in Voters(Fresh(y))
    {
      assert Given(w, Ballot(v, x.epoch), x.candidate);
      assert Ballot(v, x.epoch) !in y.ballots;
    }
  }

  /** Two replicas win one epoch only with the help of stale ballots: one at least, two when the
      number of masters is even. */
  lemma DoubleWinNeedsStaleBallots(w: World, actions: seq<Action>, x: Win, y: Win, voters: set<NodeId>)
    requires Initial(w) && x in Run(w, actions).wins && y in Run(w, actions).wins
    requires x.epoch == y.epoch && x.candidate != y.candidate
    requires AgreeOnVoters(x, y, voters)
    ensures |Stale(x)| + |Stale(y)| >= 2 * Quorum(|voters|) - |voters|
  {
    hide Run, Initial, AgreeOnVoters, Voters, Fresh, Stale;
    WinnersOfAnEpochShareNoVoter(w, actions, x, y);
    WinsHaveQuorum(w, actions, x);
    WinsHaveQuorum(w, actions, y);
    QuorumsOverlap(x, y, voters);
  }

  lemma QuorumsOverlap(x: Win, y: Win, voters: set<NodeId>)
    requires AgreeOnVoters(x, y, voters) && Voters(Fresh(x)) !! Voters(Fresh(y))
    requires |x.ballots| >= Quorum(x.size) && |y.ballots| >= Quorum(y.size)
    ensures |Stale(x)| + |Stale(y)| >= 2 * Quorum(|voters|) - |voters|
  {
    FreshCount(x);
    FreshCount(y);
    var fx, fy := Voters(Fresh(x)), Voters(Fresh(y));
    assert fx + fy <= voters;
    SubsetCardinality(fx + fy, voters);
  }

  lemma WinsHaveQuorum(w: World, actions: seq<Action>, x: Win)
    requires Initial(w) && x in Run(w, actions).wins
    ensures |x.ballots| >= Quorum(x.size) && forall b <- x.ballots :: b.epoch <= x.epoch
  {
    InitialInv(w);
    RunKeepsInv(w, actions);
    assert WinOk(Run(w, actions), x);
  }

  lemma FreshCount(x: Win)
    ensures |Voters(Fresh(x))| == |x.ballots| - |Stale(x)|
  {
    VotersCount(Fresh(x), x.epoch);
    assert x.ballots == Fresh(x) + Stale(x);
  }
}
