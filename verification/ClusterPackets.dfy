/** What every packet of the bus does to the node that receives it. */
module ClusterPackets {
  import opened Prelude
  import opened ClusterBus

  predicate Arrives(w: World, m: Message) {
    m in w.inFlight && Known(w, m.to)
  }

  // ---------------------------------------------------------------------------
  // On one node
  // ---------------------------------------------------------------------------

  /** The same node with the same table, apart from one entry. */
  ghost predicate SameBut(n: Node, n': Node, p: NodeId) {
    n'.id == n.id && n'.peers.Keys == n.peers.Keys && forall q <- n.peers | q != p :: n'.peers[q] == n.peers[q]
  }

  lemma HeaderEffect(n: Node, m: Message)
    requires WellFormed(n)
    ensures
      var r := ProcessHeader(n, m);
      && WellFormed(r) && SameBut(n, r, m.from) && r.lastVoteEpoch == n.lastVoteEpoch
      && r.currentEpoch >= n.currentEpoch
      && (m.from in n.peers ==> r.peers[m.from] == n.peers[m.from].(configEpoch := r.peers[m.from].configEpoch)
                                && r.peers[m.from].configEpoch >= n.peers[m.from].configEpoch)
      && (m.from in n.peers && !n.peers[m.from].handshake ==>
            r.peers[m.from].configEpoch >= m.configEpoch && r.currentEpoch >= m.currentEpoch)
      && (m.from in n.peers ==> r.peers[m.from].configEpoch in {n.peers[m.from].configEpoch, m.configEpoch})
  {
  }

  /** A ping leaves every entry but the sender's and the node's own; the sender's takes the role of the packet. */
  lemma PingEffect(n: Node, m: Message, epoch: nat)
    requires WellFormed(n) && m.from in n.peers
    ensures
      var r := ProcessPing(n, m, epoch);
      && WellFormed(r) && r.id == n.id && r.peers.Keys == n.peers.Keys && r.currentEpoch >= n.currentEpoch
      && r.peers[m.from].configEpoch >= n.peers[m.from].configEpoch
      && (m.from != n.id ==> TakesRole(n, m, n.peers[m.from], r.peers[m.from]))
  {
  }

  /** The role of a packet: a master that became a replica loses its slots, and a replica whose new master is not known
      keeps the old one. */
  predicate TakesRole(n: Node, m: Message, p: Peer, p': Peer) {
    && p'.configEpoch == p.configEpoch && p'.master == m.slaveof.None?
    && p'.serving == (p.serving && (m.slaveof.None? || !p.master))
    && (m.slaveof.None? ==> p'.slaveof == None)
    && (m.slaveof.Some? ==> p'.slaveof == if m.slaveof.value in n.peers then m.slaveof else p.slaveof)
  }

  // ---------------------------------------------------------------------------
  // On the bus
  // ---------------------------------------------------------------------------

  lemma UpdateEffect(n: Node, m: Message)
    requires m.payload.Update?
    ensures
      var r, about := ProcessUpdate(n, m), m.payload.about;
      && SameBut(n, r, about) && r == n.(peers := r.peers)
      && (about in n.peers ==>
            r.peers[about] ==
            if m.from in n.peers && n.peers[about].configEpoch < m.payload.epoch
            then Peer(m.payload.epoch, true, n.peers[about].serving, n.peers[about].handshake, None)
            else n.peers[about])
  {
  }

  lemma UnknownPing(n: Node, m: Message, epoch: nat)
    requires WellFormed(n) && m.from !in n.peers
    ensures ProcessPing(n, m, epoch) == n
  {
  }

  /** The receiver's currentEpoch and its record of the sender do not fall; a sender that is past its handshake raises
      them to what the packet says. */
  ghost predicate Learns(n: Node, m: Message, n': Node) {
    && n'.id == n.id && n'.currentEpoch >= n.currentEpoch
    && (m.from in n.peers ==> m.from in n'.peers && n'.peers[m.from].configEpoch >= n.peers[m.from].configEpoch)
    && (m.from in n.peers && !n.peers[m.from].handshake ==>
          n'.currentEpoch >= m.currentEpoch && n'.peers[m.from].configEpoch >= m.configEpoch)
  }

  lemma PacketsTeach(n: Node, m: Message)
    requires WellFormed(n)
    ensures WellFormed(ProcessHeader(n, m)) && Learns(n, m, ProcessHeader(n, m))
    ensures Learns(n, m, ProcessPing(ProcessHeader(n, m), m, SenderConfigEpoch(n, m)))
    ensures m.payload.Update? ==> Learns(n, m, ProcessUpdate(ProcessHeader(n, m), m))
  {
    var r, epoch := ProcessHeader(n, m), SenderConfigEpoch(n, m);
    HeaderEffect(n, m);
    if m.from in r.peers { PingEffect(r, m, epoch); } else { UnknownPing(r, m, epoch); }
    if m.payload.Update? { UpdateEffect(r, m); }
    hide ProcessHeader, ProcessPing, ProcessUpdate, TakesRole;
  }

  /** A delivery changes no other node, and the receiver learns what the header says, whatever the packet. */
  lemma HeaderIsLearned(w: World, m: Message, c: VoteChecks, again: bool)
    requires Arrives(w, m)
    ensures
      var w' := Apply(w, Deliver(m, c, again));
      m.to in w'.nodes && w'.nodes == w.nodes[m.to := w'.nodes[m.to]] && Learns(w.nodes[m.to], m, w'.nodes[m.to])
  {
    hide DeliverTo, Learns;
    var n' := Installed(w, m, c, again);
    assert Apply(w, Deliver(m, c, again)).nodes[m.to] == n';
  }

  lemma Installed(w: World, m: Message, c: VoteChecks, again: bool) returns (n': Node)
    requires Known(w, m.to)
    ensures DeliverTo(w, m, c, again).nodes == w.nodes[m.to := n'] && Learns(w.nodes[m.to], m, n')
  {
    PacketsTeach(w.nodes[m.to], m);
    hide ProcessHeader, ProcessPing, ProcessUpdate, GrantsVote, CountsAck;
    var n := ProcessHeader(w.nodes[m.to], m);
    match m.payload
    case Ping => n' := ProcessPing(n, m, SenderConfigEpoch(w.nodes[m.to], m));
    case Update(_, _) => n' := ProcessUpdate(n, m);
    case AuthRequest => n' := if GrantsVote(n, m, c) then n.(lastVoteEpoch := n.currentEpoch) else n;
    case AuthAck =>
      n' := if CountsAck(n, m, SenderCurrentEpoch(w.nodes[m.to], m)) then n.(authCount := n.authCount + 1) else n;
  }

  /** UPDATE: a known sender that reports a greater epoch of a known node makes it a master under that epoch; an epoch
      that is not greater, or an unknown node or sender, changes nothing but what the header says. */
  lemma UpdateIsBelieved(w: World, m: Message, c: VoteChecks, again: bool)
    requires Arrives(w, m) && m.payload.Update?
    ensures
      var w' := Apply(w, Deliver(m, c, again));
      m.to in w'.nodes &&
      var n, n', about := w.nodes[m.to], w'.nodes[m.to], m.payload.about;
      && n'.peers.Keys == n.peers.Keys
      && (forall p <- n.peers | p != about && p != m.from :: n'.peers[p] == n.peers[p])
      && (about in n.peers && about != m.from ==>
            n'.peers[about] ==
            if m.from in n.peers && n.peers[about].configEpoch < m.payload.epoch
            then Peer(m.payload.epoch, true, n.peers[about].serving, n.peers[about].handshake, None)
            else n.peers[about])
      && (about in n.peers && about == m.from ==>
            && n'.peers[about].configEpoch >= m.payload.epoch
            && (n.peers[about].configEpoch < m.payload.epoch && m.configEpoch < m.payload.epoch ==>
                  n'.peers[about].configEpoch == m.payload.epoch && n'.peers[about].master
                  && n'.peers[about].slaveof == None))
  {
    HeaderEffect(w.nodes[m.to], m);
    UpdateEffect(ProcessHeader(w.nodes[m.to], m), m);
    hide ProcessHeader, ProcessUpdate;
  }

  /** PING: the sender's role becomes what the packet says. */
  lemma PingTellsRole(w: World, m: Message, c: VoteChecks, again: bool)
    requires Arrives(w, m) && m.payload.Ping? && m.from in w.nodes[m.to].peers && m.from != m.to
    ensures
      var w' := Apply(w, Deliver(m, c, again));
      m.to in w'.nodes && m.from in w'.nodes[m.to].peers &&
      var n := w.nodes[m.to];
      exists e :: e >= n.peers[m.from].configEpoch &&
        TakesRole(n, m, n.peers[m.from].(configEpoch := e), w'.nodes[m.to].peers[m.from])
  {
    var n := ProcessHeader(w.nodes[m.to], m);
    HeaderEffect(w.nodes[m.to], m);
    PingEffect(n, m, SenderConfigEpoch(w.nodes[m.to], m));
    var n' := Apply(w, Deliver(m, c, again)).nodes[m.to];
    hide ProcessHeader, ProcessPing;
    assert TakesRole(w.nodes[m.to], m, w.nodes[m.to].peers[m.from].(configEpoch := n.peers[m.from].configEpoch),
                     n'.peers[m.from]);
  }

  /** What a voter asks of a request, with its currentEpoch already raised by the header. */
  predicate MayVoteFor(n: Node, m: Message, c: VoteChecks)
    requires WellFormed(n)
  {
    && m.from in n.peers && !n.peers[m.from].master && n.peers[m.from].slaveof != None
    && Self(n).master && Self(n).serving
    && m.currentEpoch >= n.currentEpoch
    && n.lastVoteEpoch != (if n.peers[m.from].handshake then n.currentEpoch else m.currentEpoch)
    && c == VoteChecks(true, true, true)
  }

  /** FAILOVER_AUTH_REQUEST: a vote is given if and only if the voter is a master with slots, the request is not from an
      older epoch, the voter has not voted in this one, the sender is a replica of a known master and the checks pass.
      It is then the vote of that epoch, and an ack with it is on its way. */
  lemma VoteGivenIff(w: World, m: Message, c: VoteChecks, again: bool)
    requires Arrives(w, m) && m.payload.AuthRequest? && m.from in w.nodes && w.nodes[m.to].id == m.to
    ensures
      var n, w' := w.nodes[m.to], Apply(w, Deliver(m, c, again));
      m.to in w'.nodes &&
      var n' := w'.nodes[m.to];
      if MayVoteFor(n, m, c) then
        && n'.lastVoteEpoch == n'.currentEpoch && w'.votes == w.votes[Ballot(m.to, n'.currentEpoch) := m.from]
        && (!n.peers[m.from].handshake ==> n'.currentEpoch == m.currentEpoch)
        && exists k <- w'.inFlight :: k.payload.AuthAck? && k.from == m.to && k.to == m.from
                                      && k.currentEpoch == n'.currentEpoch
      else n'.lastVoteEpoch == n.lastVoteEpoch && w'.votes == w.votes && w'.inFlight <= w.inFlight
  {
    var n, w' := ProcessHeader(w.nodes[m.to], m), Apply(w, Deliver(m, c, again));
    assert GrantsVote(n, m, c) <==> MayVoteFor(w.nodes[m.to], m, c);
    if GrantsVote(n, m, c) {
      assert Header(w'.nodes[m.to], m.from, AuthAck) in w'.inFlight;
    }
    hide GrantsVote, MayVoteFor;
  }

  /** FAILOVER_AUTH_ACK: counted if and only if the sender is known as a master with slots and the ack is not from an
      epoch older than the election's; an ack of a sender in handshake counts as of epoch zero. */
  lemma AckCountedIff(w: World, m: Message, c: VoteChecks, again: bool)
    requires Arrives(w, m) && m.payload.AuthAck?
    ensures
      var n, w' := w.nodes[m.to], Apply(w, Deliver(m, c, again));
      m.to in w'.nodes &&
      if && m.from in n.peers && n.peers[m.from].master && n.peers[m.from].serving
         && (if n.peers[m.from].handshake then 0 else m.currentEpoch) >= n.authEpoch
      then
        && w'.nodes[m.to].authCount == n.authCount + 1
        && w'.counted == w.counted[m.to := w.counted[m.to] + {Ballot(m.from, m.currentEpoch)}]
      else w'.nodes[m.to].authCount == n.authCount && w'.counted == w.counted
  {
  }

  /** Packets carry the sender's currentEpoch and its configEpoch; a replica's carry its master's, if it knows it. */
  lemma PingCarriesEpochs(w: World, i: NodeId, to: NodeId)
    requires Known(w, i) && to in w.nodes
    ensures
      exists m <- Apply(w, SendPing(i, to)).inFlight ::
        && m.from == i && m.to == to && m.payload.Ping? && m.currentEpoch == w.nodes[i].currentEpoch
        && m.slaveof == Self(w.nodes[i]).slaveof
        && m.configEpoch ==
           (var s := Self(w.nodes[i]);
            if s.master || s.slaveof.None? || s.slaveof.value !in w.nodes[i].peers then s.configEpoch
            else w.nodes[i].peers[s.slaveof.value].configEpoch)
  {
    assert Header(w.nodes[i], to, Ping) in Apply(w, SendPing(i, to)).inFlight;
  }

  /** An election starts in a new epoch, with a request in that epoch to every recipient. */
  lemma ElectionStarts(w: World, i: NodeId, recipients: set<NodeId>)
    requires Known(w, i) && !Self(w.nodes[i]).master && Self(w.nodes[i]).slaveof != None && !w.nodes[i].authSent
    ensures
      var n, w' := w.nodes[i], Apply(w, StartElection(i, recipients));
      i in w'.nodes &&
      var n' := w'.nodes[i];
      && n' == n.(currentEpoch := n.currentEpoch + 1, authEpoch := n.currentEpoch + 1, authSent := true)
      && forall r <- recipients | r in w.nodes ::
        exists m <- w'.inFlight ::
          m.from == i && m.to == r && m.payload.AuthRequest? && m.currentEpoch == n.currentEpoch + 1
  {
    var w' := Apply(w, StartElection(i, recipients));
    forall r <- recipients | r in w.nodes
      ensures exists m <- w'.inFlight ::
          m.from == i && m.to == r && m.payload.AuthRequest? && m.currentEpoch == w.nodes[i].currentEpoch + 1
    {
      assert Header(w'.nodes[i], r, AuthRequest) in w'.inFlight;
    }
  }

  /** Scheduling an attempt forgets the votes counted so far; only a replica schedules one. */
  lemma ScheduleForgetsVotes(w: World, i: NodeId)
    requires Known(w, i)
    ensures
      var n, w' := w.nodes[i], Apply(w, Schedule(i));
      if !Self(n).master && Self(n).slaveof != None then
        && w'.nodes == w.nodes[i := n.(authCount := 0, authSent := false)] && w'.counted == w.counted[i := {}]
      else w' == w
  {
  }

  /** The end of a handshake: the entry leaves its random name, and is filed under the real one unless that is known. */
  lemma HandshakeEnds(w: World, i: NodeId, random: NodeId, name: NodeId, master: bool)
    requires Known(w, i) && random != i && random in w.nodes[i].peers && w.nodes[i].peers[random].handshake
    requires random != name
    ensures
      var n, w' := w.nodes[i], Apply(w, EndHandshake(i, random, name, master));
      i in w'.nodes &&
      var n' := w'.nodes[i];
      && n'.peers.Keys == n.peers.Keys - {random} + {name}
      && (forall p <- n.peers | p != random :: n'.peers[p] == n.peers[p])
      && (name !in n.peers ==> n'.peers[name] == n.peers[random].(handshake := false, master := master))
  {
  }

  /** A configuration epoch is set by hand only on a node that knows nobody and has none; currentEpoch keeps up. */
  lemma EpochSetByHand(w: World, i: NodeId, epoch: nat)
    requires Known(w, i)
    ensures
      var n, w' := w.nodes[i], Apply(w, SetConfigEpoch(i, epoch));
      if n.peers.Keys == {i} && Self(n).configEpoch == 0 then
        && i in w'.nodes && WellFormed(w'.nodes[i]) && Self(w'.nodes[i]).configEpoch == epoch
        && w'.nodes[i].currentEpoch >= epoch && w'.nodes[i].currentEpoch in {n.currentEpoch, epoch}
      else w' == w
  {
  }

  /** Meeting a node files it in handshake under a name that is new to everybody; nothing else changes. */
  lemma MeetFilesHandshake(w: World, i: NodeId, random: NodeId)
    requires Known(w, i)
    ensures
      var n, w' := w.nodes[i], Apply(w, Meet(i, random));
      if random !in n.peers && random !in w.nodes then
        && i in w'.nodes && w'.nodes[i] == n.(peers := w'.nodes[i].peers)
        && w'.nodes[i].peers.Keys == n.peers.Keys + {random} && w'.nodes[i].peers[random].handshake
        && forall p <- n.peers :: w'.nodes[i].peers[p] == n.peers[p]
      else w' == w
  {
  }

  /** Forgetting a node removes its entry, unless it is the node itself; a dropped packet is gone. */
  lemma ForgetAndDrop(w: World, i: NodeId, p: NodeId, m: Message)
    requires Known(w, i)
    ensures
      var n, w' := w.nodes[i], Apply(w, Forget(i, p));
      if p == i then w' == w
      else
        && i in w'.nodes && w'.nodes[i].peers.Keys == n.peers.Keys - {p}
        && forall q <- n.peers | q != p :: w'.nodes[i].peers[q] == n.peers[q]
    ensures m !in Apply(w, Drop(m)).inFlight && Apply(w, Drop(m)).nodes == w.nodes
  {
  }
}
