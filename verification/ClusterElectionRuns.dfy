/**
 When election safety holds, and a run in which it does not.

 A replica that starts every election with a zero count never shares an epoch with another winner.
 The code does not make sure of it: between the scheduling of an attempt and its start the count can
 be raised by an ack of the previous attempt, and nothing resets it when the election starts.
 */
module ClusterElectionRuns {
  import opened Prelude
  import opened ClusterBus
  import opened ClusterElection

  // ---------------------------------------------------------------------------
  // Elections that start with a zero count
  // ---------------------------------------------------------------------------

  /** The action does not start an election over a count that is not zero. */
  predicate StartsClean(w: World, a: Action) {
    a.StartElection? && Known(w, a.n) && MayStandForElection(w.nodes[a.n]) && !w.nodes[a.n].authSent
    ==> w.nodes[a.n].authCount == 0
  }

  predicate AllStartsClean(w: World, actions: seq<Action>)
    decreases |actions|
  {
    actions == [] || (StartsClean(w, actions[0]) && AllStartsClean(Apply(w, actions[0]), actions[1..]))
  }

  /** Every counted ballot belongs to the epoch of the node's own election. */
  ghost predicate FreshInv(w: World) {
    && w.counted.Keys == w.nodes.Keys
    && (forall i <- w.nodes :: CountFresh(w, i))
    && (forall x <- w.wins :: WinFresh(x))
  }

  ghost predicate CountFresh(w: World, i: NodeId)
    requires i in w.nodes && i in w.counted
  {
    forall b <- w.counted[i] :: b.epoch == w.nodes[i].authEpoch
  }

  ghost predicate WinFresh(x: Win) {
    forall b <- x.ballots :: b.epoch == x.epoch
  }

  lemma PutKeepsFresh(w: World, n: Node)
    requires FreshInv(w) && n.id in w.nodes && WellFormed(n)
    requires n.authEpoch == w.nodes[n.id].authEpoch || w.counted[n.id] == {}
    ensures FreshInv(Put(w, n))
  {
    var w' := Put(w, n);
    assert w'.nodes.Keys == w.nodes.Keys;
    forall i <- w'.nodes
      ensures CountFresh(w', i)
    {
      assert CountFresh(w, i);
    }
  }

  lemma SetCountKeepsFresh(w: World, i: NodeId, ballots: set<Ballot>)
    requires FreshInv(w) && i in w.nodes && forall b <- ballots :: b.epoch == w.nodes[i].authEpoch
    ensures FreshInv(w.(counted := w.counted[i := ballots]))
  {
    var w' := w.(counted := w.counted[i := ballots]);
    forall j <- w'.nodes
      ensures CountFresh(w', j)
    {
      assert CountFresh(w, j);
    }
  }

  /** Messages and votes play no part in freshness. */
  lemma OtherFieldsKeepFresh(w: World, inFlight: set<Message>, votes: map<Ballot, NodeId>)
    requires FreshInv(w)
    ensures FreshInv(w.(inFlight := inFlight, votes := votes))
  {
    var w' := w.(inFlight := inFlight, votes := votes);
    forall j <- w'.nodes
      ensures CountFresh(w', j)
    {
      assert CountFresh(w, j);
    }
  }

  /** An ack that is counted carries exactly the epoch of the election. */
  lemma CountedAckIsCurrent(w: World, m: Message)
    requires MessageOk(w, m) && m.payload.AuthAck?
    requires CountsAck(ProcessHeader(w.nodes[m.to], m), m, SenderCurrentEpoch(w.nodes[m.to], m))
    ensures m.currentEpoch == w.nodes[m.to].authEpoch
  {
  }

  /** Headers, pings and updates change neither who a node is nor its election. */
  lemma ProcessingKeepsElection(n: Node, m: Message, senderConfigEpoch: nat)
    requires WellFormed(n)
    ensures
      var h := ProcessHeader(n, m);
      && h.id == n.id && WellFormed(h) && h.authEpoch == n.authEpoch
      && ProcessPing(h, m, senderConfigEpoch).id == n.id && WellFormed(ProcessPing(h, m, senderConfigEpoch))
      && ProcessPing(h, m, senderConfigEpoch).authEpoch == n.authEpoch
      && (m.payload.Update? ==>
            var u := ProcessUpdate(h, m);
            u.id == n.id && WellFormed(u) && u.authEpoch == n.authEpoch)
  {
  }

  lemma DeliverKeepsFresh(w0: World, m: Message, c: VoteChecks, again: bool)
    requires FreshInv(w0) && MessageOk(w0, m) && Known(w0, m.to)
    ensures FreshInv(DeliverTo(w0, m, c, again))
  {
    hide FreshInv, ProcessHeader, ProcessPing, ProcessUpdate, GrantsVote, Put;
    ProcessingKeepsElection(w0.nodes[m.to], m, SenderConfigEpoch(w0.nodes[m.to], m));
    OtherFieldsKeepFresh(w0, w0.inFlight - {m}, w0.votes);
    var w := if again && !m.payload.AuthAck? then w0 else w0.(inFlight := w0.inFlight - {m});
    var before := w.nodes[m.to];
    var n := ProcessHeader(before, m);
    match m.payload
    case Ping => PutKeepsFresh(w, ProcessPing(n, m, SenderConfigEpoch(before, m)));
    case Update(_, _) => PutKeepsFresh(w, ProcessUpdate(n, m));
    case AuthRequest =>
      PutKeepsFresh(w, n);
      if GrantsVote(n, m, c) { GrantKeepsFresh(w, n, m.from); }
    case AuthAck =>
      PutKeepsFresh(w, n);
      if CountsAck(n, m, SenderCurrentEpoch(before, m)) {
        CountedAckIsCurrent(w0, m);
        CountKeepsFresh(w, n, Ballot(m.from, m.currentEpoch));
      }
  }

  lemma GrantKeepsFresh(w: World, n: Node, candidate: NodeId)
    requires FreshInv(w) && n.id in w.nodes && WellFormed(n) && n.authEpoch == w.nodes[n.id].authEpoch
    ensures
      var voted := n.(lastVoteEpoch := n.currentEpoch);
      FreshInv(Send(Put(w, voted).(votes := w.votes[Ballot(n.id, n.currentEpoch) := candidate]),
                    Header(voted, candidate, AuthAck)))
  {
    var voted := n.(lastVoteEpoch := n.currentEpoch);
    PutKeepsFresh(w, voted);
    hide FreshInv;
    var votes := w.votes[Ballot(n.id, n.currentEpoch) := candidate];
    OtherFieldsKeepFresh(Put(w, voted), w.inFlight, votes);
    OtherFieldsKeepFresh(Put(w, voted), w.inFlight + {Header(voted, candidate, AuthAck)}, votes);
  }

  lemma CountKeepsFresh(w: World, n: Node, b: Ballot)
    requires FreshInv(w) && n.id in w.nodes && WellFormed(n)
    requires n.authEpoch == w.nodes[n.id].authEpoch == b.epoch
    ensures FreshInv(Put(w, n.(authCount := n.authCount + 1)).(counted := w.counted[n.id := w.counted[n.id] + {b}]))
  {
    var counting := n.(authCount := n.authCount + 1);
    PutKeepsFresh(w, counting);
    assert CountFresh(w, n.id);
    SetCountKeepsFresh(Put(w, counting), n.id, w.counted[n.id] + {b});
  }

  lemma LocalStepKeepsFresh(w: World, a: Action, n: Node)
    requires FreshInv(w) && !a.Deliver? && !a.Drop? && Known(w, a.n) && n == w.nodes[a.n]
    requires StartsClean(w, a) && n.authCount == |w.counted[a.n]|
    ensures FreshInv(ApplyAt(w, a, n))
  {
    match a
    case SendPing(_, to) => OtherFieldsKeepFresh(w, ApplyAt(w, a, n).inFlight, w.votes);
    case SendUpdate(_, to, about) => OtherFieldsKeepFresh(w, ApplyAt(w, a, n).inFlight, w.votes);
    case Schedule(_) =>
      if MayStandForElection(n) {
        PutKeepsFresh(w, n.(authCount := 0, authSent := false));
        SetCountKeepsFresh(Put(w, n.(authCount := 0, authSent := false)), n.id, {});
      }
    case StartElection(_, recipients) => StartKeepsFresh(w, n, recipients);
    case CheckQuorum(_) => WinKeepsFresh(w, n);
    case _ => OrdinaryStepKeepsFresh(w, a, n);
  }

  lemma OrdinaryStepKeepsFresh(w: World, a: Action, n: Node)
    requires a.Bump? || a.SetConfigEpoch? || a.Meet? || a.EndHandshake? || a.Forget? || a.Observe? || a.Resize?
    requires FreshInv(w) && Known(w, a.n) && n == w.nodes[a.n]
    ensures FreshInv(ApplyAt(w, a, n))
  {
    hide FreshInv;
    var w' := ApplyAt(w, a, n);
    if w' != w {
      PutKeepsFresh(w, w'.nodes[a.n]);
    }
  }

  lemma StartKeepsFresh(w: World, n: Node, recipients: set<NodeId>)
    requires FreshInv(w) && Known(w, n.id) && n == w.nodes[n.id] && n.authCount == |w.counted[n.id]|
    requires StartsClean(w, StartElection(n.id, recipients))
    ensures FreshInv(ApplyAt(w, StartElection(n.id, recipients), n))
  {
    if MayStandForElection(n) && !n.authSent {
      var started := n.(currentEpoch := n.currentEpoch + 1, authEpoch := n.currentEpoch + 1, authSent := true);
      assert w.counted[n.id] == {};
      PutKeepsFresh(w, started);
      OtherFieldsKeepFresh(Put(w, started), w.inFlight + Requests(started, recipients * w.nodes.Keys), w.votes);
    }
  }

  lemma WinKeepsFresh(w: World, n: Node)
    requires FreshInv(w) && Known(w, n.id) && n == w.nodes[n.id]
    ensures FreshInv(ApplyAt(w, CheckQuorum(n.id), n))
  {
    if PassesQuorum(n) {
      var w1 := Put(w, TakeOver(n));
      PutKeepsFresh(w, TakeOver(n));
      assert CountFresh(w, n.id);
      AddWinKeepsFresh(w1, Win(n.id, n.authEpoch, n.size, w.counted[n.id]));
    }
  }

  lemma AddWinKeepsFresh(w: World, x: Win)
    requires FreshInv(w) && WinFresh(x)
    ensures FreshInv(w.(wins := w.wins + {x}))
  {
    var w' := w.(wins := w.wins + {x});
    forall j <- w'.nodes
      ensures CountFresh(w', j)
    {
      assert CountFresh(w, j);
    }
  }

  lemma {:induction false} RunKeepsFresh(w: World, actions: seq<Action>)
    requires ElectionInv(w) && FreshInv(w) && AllStartsClean(w, actions)
    ensures FreshInv(Run(w, actions))
    decreases |actions|
  {
    if actions != [] {
      ApplyKeepsFresh(w, actions[0]);
      ApplyKeepsInv(w, actions[0]);
      RunKeepsFresh(Apply(w, actions[0]), actions[1..]);
    }
  }

  lemma ApplyKeepsFresh(w: World, a: Action)
    requires ElectionInv(w) && FreshInv(w) && StartsClean(w, a)
    ensures FreshInv(Apply(w, a))
  {
    match a
    case Deliver(m, c, again) =>
      if m in w.inFlight && Known(w, m.to) { DeliverKeepsFresh(w, m, c, again); }
    case Drop(m) => OtherFieldsKeepFresh(w, w.inFlight - {m}, w.votes);
    case _ =>
      if Known(w, a.n) { LocalStepKeepsFresh(w, a, w.nodes[a.n]); }
  }

  /** An election that starts over a count that is not zero counts ballots of an older epoch from then on. */
  lemma UncleanStartIsStale(w: World, a: Action)
    requires ElectionInv(w) && FreshInv(w) && !StartsClean(w, a)
    ensures !FreshInv(Apply(w, a))
  {
    var n := w.nodes[a.n];
    assert NodeOk(n, a.n, w.counted[a.n]);
    var b :| b in w.counted[a.n];
    assert CountFresh(w, a.n);
    StartRaisesEpoch(w, a);
    hide Apply, ElectionInv, NodeOk;
    assert !CountFresh(Apply(w, a), a.n);
  }

  lemma StartRaisesEpoch(w: World, a: Action)
    requires !StartsClean(w, a)
    ensures
      var w' := Apply(w, a);
      && a.n in w'.nodes && a.n in w'.counted && w'.counted[a.n] == w.counted[a.n]
      && w'.nodes[a.n].authEpoch == w.nodes[a.n].currentEpoch + 1
  {
  }

  ghost predicate FreshThroughout(w: World, actions: seq<Action>)
    decreases |actions|
  {
    FreshInv(w) && (actions == [] || FreshThroughout(Apply(w, actions[0]), actions[1..]))
  }

  /** Every ballot counted during a run belongs to the election it is counted for if and only if every election of the
      run starts with a zero count. */
  lemma {:induction false} FreshThroughoutIff(w: World, actions: seq<Action>)
    requires ElectionInv(w) && FreshInv(w)
    ensures FreshThroughout(w, actions) <==> AllStartsClean(w, actions)
    decreases |actions|
  {
    hide ElectionInv, FreshInv, Apply, StartsClean;
    if actions != [] {
      ApplyKeepsInv(w, actions[0]);
      if StartsClean(w, actions[0]) {
        ApplyKeepsFresh(w, actions[0]);
        FreshThroughoutIff(Apply(w, actions[0]), actions[1..]);
      } else {
        UncleanStartIsStale(w, actions[0]);
      }
    }
  }

  /** Election safety: in a run whose elections all start with a zero count, two different replicas that
      take their quorum over the same masters never win the same epoch. */
  lemma ElectionSafety(w: World, actions: seq<Action>, x: Win, y: Win, voters: set<NodeId>)
    requires Initial(w) && AllStartsClean(w, actions)
    requires x in Run(w, actions).wins && y in Run(w, actions).wins && AgreeOnVoters(x, y, voters)
    ensures x.epoch == y.epoch ==> x.candidate == y.candidate
  {
    InitialInv(w);
    RunKeepsFresh(w, actions);
    assert WinFresh(x) && WinFresh(y);
    assert Stale(x) == {} && Stale(y) == {};
    if x.epoch == y.epoch && x.candidate != y.candidate {
      DoubleWinNeedsStaleBallots(w, actions, x, y, voters);
    }
  }

  // ---------------------------------------------------------------------------
  // A run with two winners of one epoch
  // ---------------------------------------------------------------------------

  /** Masters 1, 2 and 3 serve slots; 4 and 5 are replicas of master 3. Everybody knows everybody. */
  function Table(): map<NodeId, Peer> {
    map[1 := Peer(0, true, true, false, None),
        2 := Peer(0, true, true, false, None),
        3 := Peer(0, true, true, false, None),
        4 := Peer(0, false, false, false, Some(3)),
        5 := Peer(0, false, false, false, Some(3))]
  }

  const YES := VoteChecks(true, true, true)

  function Master(id: NodeId, current: nat, lastVote: nat): Node {
    Node(id, Table(), current, lastVote, 3, 0, 0, false)
  }

  function Replica(id: NodeId, current: nat, auth: nat, count: nat, sent: bool): Node {
    Node(id, Table(), current, 0, 3, auth, count, sent)
  }

  function Request(from: NodeId, to: NodeId, epoch: nat): Message {
    Message(from, to, epoch, 0, Some(3), AuthRequest)
  }

  function Ack(from: NodeId, to: NodeId, epoch: nat): Message {
    Message(from, to, epoch, 0, None, AuthAck)
  }

  lemma HeaderOnlyMovesCurrentEpoch(n: Node, m: Message)
    requires n.peers == Table() && m.from in Table() && m.configEpoch == 0
    ensures ProcessHeader(n, m) == n.(currentEpoch := Max(n.currentEpoch, m.currentEpoch))
  {
    assert n.peers[m.from := n.peers[m.from]] == n.peers;
  }

  lemma StartRun(w: World, c: NodeId, current: nat, auth: nat, count: nat, to: set<NodeId>)
    requires c == 4 || c == 5
    requires c in w.nodes && c in w.counted && w.nodes[c] == Replica(c, current, auth, count, false)
    requires to <= w.nodes.Keys
    ensures
      var w' := Apply(w, StartElection(c, to));
      && w'.nodes == w.nodes[c := Replica(c, current + 1, current + 1, count, true)]
      && (forall v <- to :: Request(c, v, current + 1) in w'.inFlight)
      && w'.counted == w.counted && w'.wins == w.wins
  {
    var started := Replica(c, current + 1, current + 1, count, true);
    assert to * w.nodes.Keys == to;
    forall v <- to
      ensures Request(c, v, current + 1) in Requests(started, to)
    {
      assert Header(started, v, AuthRequest) == Request(c, v, current + 1);
    }
  }

  lemma GrantRun(w: World, c: NodeId, v: NodeId, current: nat, last: nat, epoch: nat)
    requires (c == 4 || c == 5) && 1 <= v <= 3 && c in w.nodes
    requires v in w.nodes && v in w.counted && w.nodes[v] == Master(v, current, last)
    requires Request(c, v, epoch) in w.inFlight && current <= epoch && last != epoch
    ensures
      var w' := Apply(w, Deliver(Request(c, v, epoch), YES, true));
      && w'.nodes == w.nodes[v := Master(v, epoch, epoch)]
      && w'.inFlight == w.inFlight + {Ack(v, c, epoch)}
      && w'.counted == w.counted && w'.wins == w.wins
  {
    HeaderOnlyMovesCurrentEpoch(Master(v, current, last), Request(c, v, epoch));
    assert Header(Master(v, epoch, epoch), c, AuthAck) == Ack(v, c, epoch);
  }

  lemma CountRun(w: World, c: NodeId, v: NodeId, current: nat, auth: nat, count: nat, sent: bool, epoch: nat)
    requires (c == 4 || c == 5) && 1 <= v <= 3 && auth <= epoch <= current
    requires c in w.nodes && c in w.counted && w.nodes[c] == Replica(c, current, auth, count, sent)
    requires Ack(v, c, epoch) in w.inFlight
    ensures
      var w' := Apply(w, Deliver(Ack(v, c, epoch), YES, false));
      && w'.nodes == w.nodes[c := Replica(c, current, auth, count + 1, sent)]
      && w'.inFlight == w.inFlight - {Ack(v, c, epoch)}
      && w'.counted == w.counted[c := w.counted[c] + {Ballot(v, epoch)}] && w'.wins == w.wins
  {
    HeaderOnlyMovesCurrentEpoch(Replica(c, current, auth, count, sent), Ack(v, c, epoch));
  }

  lemma ScheduleRun(w: World, c: NodeId, current: nat, auth: nat, count: nat, sent: bool)
    requires (c == 4 || c == 5) && c in w.nodes && c in w.counted
    requires w.nodes[c] == Replica(c, current, auth, count, sent)
    ensures
      var w' := Apply(w, Schedule(c));
      && w'.nodes == w.nodes[c := Replica(c, current, auth, 0, false)] && w'.inFlight == w.inFlight
      && w'.counted == w.counted[c := {}] && w'.wins == w.wins
  {
  }

  lemma WinRun(w: World, c: NodeId, epoch: nat, count: nat)
    requires (c == 4 || c == 5) && c in w.nodes && c in w.counted && w.nodes[c] == Replica(c, epoch, epoch, count, true)
    requires count >= 2
    ensures
      var w' := Apply(w, CheckQuorum(c));
      && w'.nodes.Keys == w.nodes.Keys && (forall i <- w.nodes | i != c :: w'.nodes[i] == w.nodes[i])
      && w'.counted == w.counted && w'.wins == w.wins + {Win(c, epoch, 3, w.counted[c])}
  {
  }

  /** One action at a time. */
  lemma Unroll(w: World, s: seq<Action>, i: nat)
    requires i < |s|
    ensures Run(w, s[i..]) == Run(Apply(w, s[i]), s[i + 1..])
  {
    assert s[i..][1..] == s[i + 1..];
  }

  /** Replica 4 asks master 1 in epoch 1; the ack arrives after the next attempt is scheduled. */
  const LATE_ACK: seq<Action> := [
    StartElection(4, {1}), Deliver(Request(4, 1, 1), YES, true),
    Schedule(4), Deliver(Ack(1, 4, 1), YES, false)]

  /** Its next attempt, in epoch 2, wins with one vote of that epoch. */
  const FIRST_WIN: seq<Action> := [
    StartElection(4, {2}), Deliver(Request(4, 2, 2), YES, true), Deliver(Ack(2, 4, 2), YES, false),
    CheckQuorum(4)]

  /** Replica 5 wins epoch 2 with the votes of the other two masters. */
  const SECOND_WIN: seq<Action> := [
    StartElection(5, {1, 3}), Deliver(Request(5, 1, 2), YES, true), Deliver(Request(5, 3, 2), YES, true),
    Deliver(Ack(1, 5, 2), YES, false), Deliver(Ack(3, 5, 2), YES, false),
    CheckQuorum(5)]

  function Start(): World {
    World(map[1 := Master(1, 0, 0), 2 := Master(2, 0, 0), 3 := Master(3, 0, 0),
              4 := Replica(4, 0, 0, 0, false), 5 := Replica(5, 1, 0, 0, false)],
          {}, map[], map[1 := {}, 2 := {}, 3 := {}, 4 := {}, 5 := {}], {},
          map[1 := {0}, 2 := {0}, 3 := {0}, 4 := {0}, 5 := {0}])
  }

  /** The nodes of the example and the ballots behind the counts of its two replicas. */
  ghost predicate Stage(w: World, n1: Node, n2: Node, n3: Node, n4: Node, n5: Node,
                        counted4: set<Ballot>, counted5: set<Ballot>) {
    && {1, 2, 3, 4, 5} <= w.nodes.Keys && {1, 2, 3, 4, 5} <= w.counted.Keys
    && w.nodes[1] == n1 && w.nodes[2] == n2 && w.nodes[3] == n3 && w.nodes[4] == n4 && w.nodes[5] == n5
    && w.counted[4] == counted4 && w.counted[5] == counted5
  }

  lemma LateAckRun(w0: World) returns (w: World)
    requires Stage(w0, Master(1, 0, 0), Master(2, 0, 0), Master(3, 0, 0),
                   Replica(4, 0, 0, 0, false), Replica(5, 1, 0, 0, false), {}, {})
    ensures w == Run(w0, LATE_ACK)
    ensures Stage(w, Master(1, 1, 1), Master(2, 0, 0), Master(3, 0, 0),
                  Replica(4, 1, 1, 1, false), Replica(5, 1, 0, 0, false), {Ballot(1, 1)}, {})
  {
    hide Apply, Run, Table;
    var n2, n3, n5 := Master(2, 0, 0), Master(3, 0, 0), Replica(5, 1, 0, 0, false);
    StartRun(w0, 4, 0, 0, 0, {1});
    var w1 := Apply(w0, LATE_ACK[0]);
    assert Stage(w1, Master(1, 0, 0), n2, n3, Replica(4, 1, 1, 0, true), n5, {}, {});
    GrantRun(w1, 4, 1, 0, 0, 1);
    var w2 := Apply(w1, LATE_ACK[1]);
    assert Stage(w2, Master(1, 1, 1), n2, n3, Replica(4, 1, 1, 0, true), n5, {}, {});
    ScheduleRun(w2, 4, 1, 1, 0, true);
    var w3 := Apply(w2, LATE_ACK[2]);
    assert Stage(w3, Master(1, 1, 1), n2, n3, Replica(4, 1, 1, 0, false), n5, {}, {});
    CountRun(w3, 4, 1, 1, 1, 0, false, 1);
    w := Apply(w3, LATE_ACK[3]);
    assert w3.counted[4] + {Ballot(1, 1)} == {Ballot(1, 1)};
    RunFour(w0, LATE_ACK);
  }

  lemma FirstWinRun(w0: World) returns (w: World)
    requires Stage(w0, Master(1, 1, 1), Master(2, 0, 0), Master(3, 0, 0),
                   Replica(4, 1, 1, 1, false), Replica(5, 1, 0, 0, false), {Ballot(1, 1)}, {})
    ensures w == Run(w0, FIRST_WIN)
    ensures 4 in w.nodes
    ensures Stage(w, Master(1, 1, 1), Master(2, 2, 2), Master(3, 0, 0), w.nodes[4], Replica(5, 1, 0, 0, false),
                  {Ballot(1, 1), Ballot(2, 2)}, {})
    ensures Win(4, 2, 3, {Ballot(1, 1), Ballot(2, 2)}) in w.wins
  {
    hide Apply, Run, Table;
    var n1, n3, n5 := Master(1, 1, 1), Master(3, 0, 0), Replica(5, 1, 0, 0, false);
    StartRun(w0, 4, 1, 1, 1, {2});
    var w1 := Apply(w0, FIRST_WIN[0]);
    assert Stage(w1, n1, Master(2, 0, 0), n3, Replica(4, 2, 2, 1, true), n5, {Ballot(1, 1)}, {});
    GrantRun(w1, 4, 2, 0, 0, 2);
    var w2 := Apply(w1, FIRST_WIN[1]);
    assert Stage(w2, n1, Master(2, 2, 2), n3, Replica(4, 2, 2, 1, true), n5, {Ballot(1, 1)}, {});
    CountRun(w2, 4, 2, 2, 2, 1, true, 2);
    var w3 := Apply(w2, FIRST_WIN[2]);
    assert w2.counted[4] + {Ballot(2, 2)} == {Ballot(1, 1), Ballot(2, 2)};
    assert Stage(w3, n1, Master(2, 2, 2), n3, Replica(4, 2, 2, 2, true), n5, {Ballot(1, 1), Ballot(2, 2)}, {});
    WinRun(w3, 4, 2, 2);
    w := Apply(w3, FIRST_WIN[3]);
    RunFour(w0, FIRST_WIN);
  }

  lemma VotesForFive(w0: World, n4: Node, c4: set<Ballot>) returns (w: World)
    requires Stage(w0, Master(1, 1, 1), Master(2, 2, 2), Master(3, 0, 0), n4, Replica(5, 1, 0, 0, false), c4, {})
    ensures w == Run(w0, SECOND_WIN[..4]) && w.wins == w0.wins
    ensures Stage(w, Master(1, 2, 2), Master(2, 2, 2), Master(3, 2, 2), n4, Replica(5, 2, 2, 1, true), c4,
      {Ballot(1, 2)})
    ensures Ack(3, 5, 2) in w.inFlight
  {
    hide Apply, Run, Table;
    var n2 := Master(2, 2, 2);
    StartRun(w0, 5, 1, 0, 0, {1, 3});
    var w1 := Apply(w0, SECOND_WIN[0]);
    assert Stage(w1, Master(1, 1, 1), n2, Master(3, 0, 0), n4, Replica(5, 2, 2, 0, true), c4, {});
    GrantRun(w1, 5, 1, 1, 1, 2);
    var w2 := Apply(w1, SECOND_WIN[1]);
    assert Stage(w2, Master(1, 2, 2), n2, Master(3, 0, 0), n4, Replica(5, 2, 2, 0, true), c4, {});
    GrantRun(w2, 5, 3, 0, 0, 2);
    var w3 := Apply(w2, SECOND_WIN[2]);
    assert Stage(w3, Master(1, 2, 2), n2, Master(3, 2, 2), n4, Replica(5, 2, 2, 0, true), c4, {});
    CountRun(w3, 5, 1, 2, 2, 0, true, 2);
    w := Apply(w3, SECOND_WIN[3]);
    assert w3.counted[5] + {Ballot(1, 2)} == {Ballot(1, 2)};
    RunFour(w0, SECOND_WIN[..4]);
  }

  lemma SecondWinRun(w0: World, n4: Node, c4: set<Ballot>) returns (w: World)
    requires Stage(w0, Master(1, 1, 1), Master(2, 2, 2), Master(3, 0, 0), n4, Replica(5, 1, 0, 0, false), c4, {})
    ensures w == Run(w0, SECOND_WIN)
    ensures w0.wins <= w.wins && Win(5, 2, 3, {Ballot(1, 2), Ballot(3, 2)}) in w.wins
  {
    hide Apply, Table;
    var w1 := VotesForFive(w0, n4, c4);
    CountRun(w1, 5, 3, 2, 2, 1, true, 2);
    var w2 := Apply(w1, SECOND_WIN[4]);
    assert w1.counted[5] + {Ballot(3, 2)} == {Ballot(1, 2), Ballot(3, 2)};
    WinRun(w2, 5, 2, 2);
    w := Apply(w2, SECOND_WIN[5]);
    assert SECOND_WIN == SECOND_WIN[..4] + SECOND_WIN[4..];
    RunSplit(w0, SECOND_WIN[..4], SECOND_WIN[4..]);
    Unroll(w1, SECOND_WIN, 4);
    Unroll(w2, SECOND_WIN, 5);
  }

  lemma StartIsInitial()
    ensures Initial(Start())
  {
    hide Table;
    TableFacts();
    StartIsStarted();
    forall i <- Start().nodes
      ensures Unfinished(Start().nodes[i]) !! Start().nodes.Keys
    {
      assert Start().nodes[i].peers == Table();
    }
  }

  lemma TableFacts()
    ensures Table().Keys == {1, 2, 3, 4, 5}
    ensures forall p <- Table() :: Table()[p].configEpoch == 0 && !Table()[p].handshake
  {
  }

  lemma StartIsStarted()
    ensures Started(Start())
  {
    hide Table, NodeStarted;
    var w := Start();
    assert w.nodes.Keys == {1, 2, 3, 4, 5} && w.counted.Keys == w.nodes.Keys && w.held.Keys == w.nodes.Keys;
    forall i <- w.nodes
      ensures NodeStarted(w, i)
    {
      StartedNode(i);
    }
  }

  lemma StartedNode(i: NodeId)
    requires i in Start().nodes && i in Start().counted && i in Start().held
    ensures NodeStarted(Start(), i)
  {
    hide Table;
    TableFacts();
  }

  /** Without that condition safety fails: replicas 4 and 5 both win epoch 2 over the masters 1, 2 and 3. */
  lemma LateAckBreaksSafety() returns (w: World, actions: seq<Action>, x: Win, y: Win)
    ensures Initial(w) && x in Run(w, actions).wins && y in Run(w, actions).wins
    ensures AgreeOnVoters(x, y, {1, 2, 3})
    ensures x.epoch == y.epoch && x.candidate != y.candidate
  {
    w := Start();
    StartIsInitial();
    hide Run, Started, Initial, Table;
    actions := LATE_ACK + (FIRST_WIN + SECOND_WIN);
    x, y := Win(4, 2, 3, {Ballot(1, 1), Ballot(2, 2)}), Win(5, 2, 3, {Ballot(1, 2), Ballot(3, 2)});
    var w1 := LateAckRun(w);
    var w2 := FirstWinRun(w1);
    var w3 := SecondWinRun(w2, w2.nodes[4], {Ballot(1, 1), Ballot(2, 2)});
    RunSplit(w, LATE_ACK, FIRST_WIN + SECOND_WIN);
    RunSplit(w1, FIRST_WIN, SECOND_WIN);
  }

  lemma RunFour(w: World, s: seq<Action>)
    requires |s| == 4
    ensures Run(w, s) == Apply(Apply(Apply(Apply(w, s[0]), s[1]), s[2]), s[3])
  {
    hide Apply;
    assert s[0..] == s;
    Unroll(w, s, 0);
    var w1 := Apply(w, s[0]);
    Unroll(w1, s, 1);
    var w2 := Apply(w1, s[1]);
    Unroll(w2, s, 2);
    var w3 := Apply(w2, s[2]);
    Unroll(w3, s, 3);
  }

  lemma {:induction false} RunSplit(w: World, s: seq<Action>, t: seq<Action>)
    ensures Run(w, s + t) == Run(Run(w, s), t)
    decreases |s|
  {
    if s == [] {
      assert s + t == t;
    } else {
      assert (s + t)[1..] == s[1..] + t;
      RunSplit(Apply(w, s[0]), s[1..], t);
    }
  }
}
