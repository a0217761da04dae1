/**
 The cluster bus: epochs and failover elections.

 Every node keeps its own picture of the others (peers), and the only way nodes
 influence each other is by messages that may be delayed, reordered or lost.
 A run is a list of actions; Apply is total, an action that is not enabled changes
 nothing, so a statement about every action list is a statement about every run.
 */
module ClusterBus {
  import opened Prelude

  /** Node names are fixed-length strings compared with memcmp; only their order matters. */
  type NodeId = nat

  /** One entry of the nodes table: what a node believes about another one, or about itself. */
  datatype Peer = Peer(
    configEpoch: nat,
    master: bool,
    serving: bool,            // numslots > 0
    handshake: bool,          // filed under a random name until its first pong
    slaveof: Option<NodeId>)

  datatype Node = Node(
    id: NodeId,
    peers: map<NodeId, Peer>, // contains the node itself
    currentEpoch: nat,
    lastVoteEpoch: nat,
    size: nat,                // masters with at least one slot, at the last state update
    authEpoch: nat,
    authCount: nat,
    authSent: bool)

  datatype Payload =
    | Ping
    | AuthRequest
    | AuthAck
    | Update(about: NodeId, epoch: nat)

  /** The header fields every packet carries, and the payload. */
  datatype Message = Message(
    from: NodeId,
    to: NodeId,
    currentEpoch: nat,
    configEpoch: nat,
    slaveof: Option<NodeId>,
    payload: Payload)

  /** What the voter looks at besides its epochs: clocks, failure flags and slot owners. */
  datatype VoteChecks = VoteChecks(masterFailedOrForced: bool, notVotedRecently: bool, slotsNotStale: bool)

  /** A vote is identified by who gave it and in which epoch. */
  datatype Ballot = Ballot(voter: NodeId, epoch: nat)

  /** What was true when a replica passed the quorum test. */
  datatype Win = Win(candidate: NodeId, epoch: nat, size: nat, ballots: set<Ballot>)

  /** The nodes, the messages in flight, and history that no node can read:
      who each ballot went to, which ballots make up each count, the elections won,
      and every value each node's own configEpoch has had. */
  datatype World = World(
    nodes: map<NodeId, Node>,
    inFlight: set<Message>,
    votes: map<Ballot, NodeId>,
    counted: map<NodeId, set<Ballot>>,
    wins: set<Win>,
    held: map<NodeId, set<nat>>)

  datatype Action =
    | SendPing(n: NodeId, to: NodeId)
    | SendUpdate(n: NodeId, to: NodeId, about: NodeId)
    | Deliver(m: Message, checks: VoteChecks, again: bool)
    | Drop(m: Message)
    | Schedule(n: NodeId)
    | StartElection(n: NodeId, recipients: set<NodeId>)
    | CheckQuorum(n: NodeId)
    | Bump(n: NodeId)
    | SetConfigEpoch(n: NodeId, epoch: nat)
    | Meet(n: NodeId, random: NodeId)
    | EndHandshake(n: NodeId, random: NodeId, name: NodeId, master: bool)
    | Forget(n: NodeId, p: NodeId)
    | Observe(n: NodeId, p: NodeId, master: bool, serving: bool, slaveof: Option<NodeId>)
    | Resize(n: NodeId, size: nat)

  // ---------------------------------------------------------------------------
  // Node-local behaviour
  // ---------------------------------------------------------------------------

  predicate WellFormed(n: Node) {
    n.id in n.peers
  }

  function Self(n: Node): Peer
    requires WellFormed(n)
  {
    n.peers[n.id]
  }

  function SetPeer(n: Node, p: NodeId, e: Peer): Node {
    n.(peers := n.peers[p := e])
  }

  function WithoutPeer(n: Node, p: NodeId): Node {
    n.(peers := map q | q in n.peers && q != p :: n.peers[q])
  }

  /** The first pong of a node met: it gets its real name and leaves the handshake, or goes if it is known already. */
  function FinishHandshake(n: Node, random: NodeId, name: NodeId, master: bool): Node
    requires random in n.peers
  {
    if name in n.peers then WithoutPeer(n, random)
    else SetPeer(WithoutPeer(n, random), name, n.peers[random].(handshake := false, master := master))
  }

  /** A replica advertises its master's configEpoch instead of its own. */
  function AdvertisedEpoch(n: Node): nat
    requires WellFormed(n)
  {
    var s := Self(n);
    if !s.master && s.slaveof.Some? && s.slaveof.value in n.peers
    then n.peers[s.slaveof.value].configEpoch
    else s.configEpoch
  }

  function Header(n: Node, to: NodeId, payload: Payload): Message
    requires WellFormed(n)
  {
    Message(n.id, to, n.currentEpoch, AdvertisedEpoch(n), Self(n).slaveof, payload)
  }

  function Requests(n: Node, recipients: set<NodeId>): set<Message>
    requires WellFormed(n)
  {
    set r <- recipients :: Header(n, r, AuthRequest)
  }

  predicate SenderTrusted(n: Node, m: Message) {
    m.from in n.peers && !n.peers[m.from].handshake
  }

  /** The epochs of a packet as the handlers see them: zero unless the sender is known and past its handshake. */
  function SenderCurrentEpoch(n: Node, m: Message): nat {
    if SenderTrusted(n, m) then m.currentEpoch else 0
  }

  function SenderConfigEpoch(n: Node, m: Message): nat {
    if SenderTrusted(n, m) then m.configEpoch else 0
  }

  function ProcessHeader(n: Node, m: Message): Node {
    if SenderTrusted(n, m) then
      var p := n.peers[m.from];
      SetPeer(n, m.from, p.(configEpoch := Max(p.configEpoch, m.configEpoch)))
      .(currentEpoch := Max(n.currentEpoch, m.currentEpoch))
    else n
  }

  /** Role switch of the sender: a master that became a replica loses its slots. */
  function UpdateRole(n: Node, m: Message): Node
    requires m.from in n.peers
  {
    var p := n.peers[m.from];
    if m.slaveof.None? then
      SetPeer(n, m.from, p.(master := true, slaveof := None))
    else
      SetPeer(n, m.from, p.(master := false,
                            serving := p.serving && !p.master,
                            slaveof := if m.slaveof.value in n.peers then m.slaveof else p.slaveof))
  }

  /** Two masters with the same configEpoch: the one with the smaller name takes a new epoch. */
  function HandleCollision(n: Node, sender: NodeId): Node
    requires WellFormed(n) && sender in n.peers
  {
    var s := n.peers[sender];
    if s.configEpoch != Self(n).configEpoch || !s.master || !Self(n).master || sender <= n.id
    then n
    else SetPeer(n, n.id, Self(n).(configEpoch := n.currentEpoch + 1)).(currentEpoch := n.currentEpoch + 1)
  }

  function ProcessPing(n: Node, m: Message, senderConfigEpoch: nat): Node
    requires WellFormed(n)
  {
    if m.from !in n.peers then n else
    var r := UpdateRole(n, m);
    if Self(r).master && r.peers[m.from].master && senderConfigEpoch == Self(r).configEpoch
    then HandleCollision(r, m.from)
    else r
  }

  predicate GrantsVote(n: Node, m: Message, c: VoteChecks)
    requires WellFormed(n)
  {
    && m.from in n.peers
    && Self(n).master && Self(n).serving
    && m.currentEpoch >= n.currentEpoch
    && n.lastVoteEpoch != n.currentEpoch
    && !n.peers[m.from].master && n.peers[m.from].slaveof.Some?
    && c.masterFailedOrForced && c.notVotedRecently && c.slotsNotStale
  }

  predicate CountsAck(n: Node, m: Message, senderCurrentEpoch: nat) {
    && m.from in n.peers
    && n.peers[m.from].master && n.peers[m.from].serving
    && senderCurrentEpoch >= n.authEpoch
  }

  /** An UPDATE is looked at whenever its sender is in the table, even in handshake. */
  function ProcessUpdate(n: Node, m: Message): Node
    requires m.payload.Update?
  {
    var about, epoch := m.payload.about, m.payload.epoch;
    if m.from !in n.peers || about !in n.peers || n.peers[about].configEpoch >= epoch then n
    else SetPeer(n, about, n.peers[about].(configEpoch := epoch, master := true, slaveof := None))
  }

  /** Whether an epoch is the greatest this node knows of. */
  predicate IsGreatestKnown(n: Node, epoch: nat) {
    n.currentEpoch <= epoch && forall p <- n.peers :: n.peers[p].configEpoch <= epoch
  }

  /** The greatest configEpoch of the table, or currentEpoch when that is greater. */
  method GetMaxEpoch(n: Node) returns (max: nat)
    ensures IsGreatestKnown(n, max)
    ensures max == n.currentEpoch || exists p <- n.peers :: max == n.peers[p].configEpoch
  {
    max := 0;
    var left := n.peers.Keys;
    while left != {}
      invariant left <= n.peers.Keys
      invariant forall p <- n.peers.Keys - left :: n.peers[p].configEpoch <= max
      invariant max == 0 || exists p <- n.peers :: max == n.peers[p].configEpoch
      decreases left
    {
      var p :| p in left;
      if n.peers[p].configEpoch > max {
        max := n.peers[p].configEpoch;
      }
      left := left - {p};
    }
    if max < n.currentEpoch {
      max := n.currentEpoch;
    }
  }

  function BumpEpoch(n: Node): Node
    requires WellFormed(n)
  {
    if Self(n).configEpoch == 0 || !IsGreatestKnown(n, Self(n).configEpoch)
    then SetPeer(n, n.id, Self(n).(configEpoch := n.currentEpoch + 1)).(currentEpoch := n.currentEpoch + 1)
    else n
  }

  function Quorum(size: nat): nat {
    size / 2 + 1
  }

  predicate MayStandForElection(n: Node)
    requires WellFormed(n)
  {
    !Self(n).master && Self(n).slaveof.Some?
  }

  predicate PassesQuorum(n: Node)
    requires WellFormed(n)
  {
    MayStandForElection(n) && n.authSent && n.authCount >= Quorum(n.size)
  }

  /** The replica takes its election's epoch and becomes a master. */
  function TakeOver(n: Node): Node
    requires WellFormed(n)
  {
    SetPeer(n, n.id, Self(n).(configEpoch := Max(Self(n).configEpoch, n.authEpoch),
                              master := true, serving := true, slaveof := None))
  }

  // ---------------------------------------------------------------------------
  // Steps of the whole system
  // ---------------------------------------------------------------------------

  /** Installs a node's new state and remembers the value of its own configEpoch. */
  function Put(w: World, n: Node): World
    requires WellFormed(n)
  {
    var seen := if n.id in w.held then w.held[n.id] else {};
    w.(nodes := w.nodes[n.id := n], held := w.held[n.id := seen + {Self(n).configEpoch}])
  }

  function Send(w: World, m: Message): World {
    if m.to in w.nodes then w.(inFlight := w.inFlight + {m}) else w
  }

  predicate Known(w: World, n: NodeId) {
    n in w.nodes && WellFormed(w.nodes[n]) && w.nodes[n].id == n && n in w.counted
  }

  /** Delivery. Acks are delivered at most once; any other packet may be delivered again. */
  function DeliverTo(w0: World, m: Message, c: VoteChecks, again: bool): World
    requires Known(w0, m.to)
  {
    var w := if again && !m.payload.AuthAck? then w0 else w0.(inFlight := w0.inFlight - {m});
    var before := w.nodes[m.to];
    var n := ProcessHeader(before, m);
    match m.payload
    case Ping => Put(w, ProcessPing(n, m, SenderConfigEpoch(before, m)))
    case Update(_, _) => Put(w, ProcessUpdate(n, m))
    case AuthRequest =>
      if GrantsVote(n, m, c) then
        var voted := n.(lastVoteEpoch := n.currentEpoch);
        Send(Put(w, voted).(votes := w.votes[Ballot(n.id, n.currentEpoch) := m.from]),
             Header(voted, m.from, AuthAck))
      else Put(w, n)
    case AuthAck =>
      if CountsAck(n, m, SenderCurrentEpoch(before, m)) then
        Put(w, n.(authCount := n.authCount + 1))
        .(counted := w.counted[n.id := w.counted[n.id] + {Ballot(m.from, m.currentEpoch)}])
      else Put(w, n)
  }

  function Apply(w: World, a: Action): World {
    match a
    case Deliver(m, c, again) =>
      if m in w.inFlight && Known(w, m.to) then DeliverTo(w, m, c, again) else w
    case Drop(m) => w.(inFlight := w.inFlight - {m})
    case _ =>
      if Known(w, a.n) then ApplyAt(w, a, w.nodes[a.n]) else w
  }

  function ApplyAt(w: World, a: Action, n: Node): World
    requires !a.Deliver? && !a.Drop?
    requires Known(w, a.n) && n == w.nodes[a.n]
  {
    match a
    case SendPing(_, to) => Send(w, Header(n, to, Ping))
    case SendUpdate(_, to, about) =>
      if about in n.peers then Send(w, Header(n, to, Update(about, n.peers[about].configEpoch))) else w
    case Schedule(_) =>
      if MayStandForElection(n) then
        Put(w, n.(authCount := 0, authSent := false)).(counted := w.counted[n.id := {}])
      else w
    case StartElection(_, recipients) =>
      if MayStandForElection(n) && !n.authSent then
        var started := n.(currentEpoch := n.currentEpoch + 1, authEpoch := n.currentEpoch + 1, authSent := true);
        Put(w, started).(inFlight := w.inFlight + Requests(started, recipients * w.nodes.Keys))
      else w
    case CheckQuorum(_) =>
      if PassesQuorum(n) then
        Put(w, TakeOver(n)).(wins := w.wins + {Win(n.id, n.authEpoch, n.size, w.counted[n.id])})
      else w
    case Bump(_) => Put(w, BumpEpoch(n))
    case SetConfigEpoch(_, epoch) =>
      if n.peers.Keys == {n.id} && Self(n).configEpoch == 0 then
        Put(w, SetPeer(n, n.id, Self(n).(configEpoch := epoch)).(currentEpoch := Max(n.currentEpoch, epoch)))
      else w
    case Meet(_, random) =>
      if random in n.peers || random in w.nodes then w
        else Put(w, SetPeer(n, random, Peer(0, false, false, true, None)))
    case EndHandshake(_, random, name, master) =>
      if random == n.id || random !in n.peers || !n.peers[random].handshake then w
      else Put(w, FinishHandshake(n, random, name, master))
    case Forget(_, p) => if p == n.id then w else Put(w, WithoutPeer(n, p))
    case Observe(_, p, master, serving, slaveof) =>
      if p in n.peers
      then Put(w, SetPeer(n, p, Peer(n.peers[p].configEpoch, master, serving, n.peers[p].handshake, slaveof)))
      else w
    case Resize(_, size) => Put(w, n.(size := size))
  }

  function Run(w: World, actions: seq<Action>): World
    decreases |actions|
  {
    if actions == [] then w else Run(Apply(w, actions[0]), actions[1..])
  }

  lemma {:induction false} RunConcat(w: World, a: seq<Action>, b: seq<Action>)
    ensures Run(w, a + b) == Run(Run(w, a), b)
    decreases |a|
  {
    hide Apply;
    if a == [] {
      assert a + b == b;
    } else {
      assert (a + b)[1..] == a[1..] + b;
      RunConcat(Apply(w, a[0]), a[1..], b);
    }
  }

  /** A cluster in which nothing has happened yet: every node's table may hold any peers it likes, except that peers in
      handshake have names no node has; they are not saved, and nodes.conf is taken not to be edited. */
  ghost predicate Initial(w: World) {
    Started(w) && forall i <- w.nodes :: Unfinished(w.nodes[i]) !! w.nodes.Keys
  }

  /** The peers in handshake. */
  function Unfinished(n: Node): set<NodeId> {
    set p <- n.peers | n.peers[p].handshake
  }

  ghost predicate Started(w: World) {
    && w.inFlight == {} && w.votes == map[] && w.wins == {}
    && w.counted.Keys == w.nodes.Keys && w.held.Keys == w.nodes.Keys
    && forall i <- w.nodes :: NodeStarted(w, i)
  }

  ghost predicate NodeStarted(w: World, i: NodeId)
    requires i in w.nodes && i in w.counted && i in w.held
  {
    var n := w.nodes[i];
    && Known(w, i)
    && w.counted[i] == {} && w.held[i] == {Self(n).configEpoch}
    && n.lastVoteEpoch <= n.currentEpoch && n.authEpoch == 0 && n.authCount == 0 && !n.authSent
    && KnowsNoGreaterEpoch(n)
  }

  /** currentEpoch is at least every configEpoch in the table. */
  ghost predicate KnowsNoGreaterEpoch(n: Node) {
    forall p <- n.peers :: n.peers[p].configEpoch <= n.currentEpoch
  }
}
