/**
 The index of clients blocked on keys, kept in both directions: every client has a table of the keys it
 waits for, every key a list of the clients that wait for it, and the table records the client's list node.
 */
module BlockedIndex {
  import opened Prelude

  type ClientId = nat
  type Key(==, !new) = nat             // a database and a key in it

  datatype BType = BNone | BList | BZSet | BStream
  datatype Where = Head | Tail

  /** bkinfo: the list node of the client in blocking_keys, and the stream ID it waits for. */
  datatype BkInfo = BkInfo(node: nat, streamId: nat)

  datatype Client = Client(
    blocked: bool,                     // CLIENT_BLOCKED
    unblocked: bool,                   // CLIENT_UNBLOCKED
    btype: BType,
    keys: map<Key, BkInfo>,            // bpop.keys
    target: Option<Key>,               // bpop.target
    where: Where,                      // the end the last command pops from
    inGroup: bool)                     // bpop.xread_group is set

  /** A node of a list of waiting clients; node numbers stand for addresses. */
  datatype Entry = Entry(node: nat, client: ClientId)

  datatype Index = Index(
    clients: map<ClientId, Client>,
    blocking: map<Key, seq<Entry>>,    // db->blocking_keys
    ready: seq<Key>,                   // server.ready_keys
    readySet: set<Key>,                // db->ready_keys
    unblockedList: seq<ClientId>,      // server.unblocked_clients
    blockedCount: int,                 // server.blocked_clients
    byType: map<BType, int>,           // server.blocked_clients_by_type
    nextNode: nat)

  // ---------------------------------------------------------------------------
  // The invariant
  // ---------------------------------------------------------------------------

  /** A client waits for keys exactly while it is blocked. */
  ghost predicate FlagsOk(s: Client) {
    && (s.blocked <==> s.btype != BNone)
    && (s.blocked <==> s.keys != map[])
  }

  /** Every key a client waits for lists it, at the node the client recorded. */
  ghost predicate ClientOk(x: Index, c: ClientId)
    requires c in x.clients
  {
    var s := x.clients[c];
    forall k <- s.keys :: k in x.blocking && Entry(s.keys[k].node, c) in x.blocking[k]
  }

  ghost predicate DistinctNodes(l: seq<Entry>) {
    forall i, j :: 0 <= i < j < |l| ==> l[i].node != l[j].node
  }

  /** A key's list is not empty, and every entry is the one its client recorded for this key. */
  ghost predicate KeyOk(x: Index, k: Key)
    requires k in x.blocking
  {
    && x.blocking[k] != []
    && DistinctNodes(x.blocking[k])
    && forall e <- x.blocking[k] ::
      e.client in x.clients && k in x.clients[e.client].keys && x.clients[e.client].keys[k].node == e.node
        && e.node < x.nextNode
  }

  function BlockedSet(clients: map<ClientId, Client>): set<ClientId> {
    set c <- clients | clients[c].blocked
  }

  function OfType(clients: map<ClientId, Client>, t: BType): set<ClientId> {
    set c <- clients | clients[c].btype == t
  }

  ghost predicate CountsOk(x: Index) {
    && x.blockedCount == |BlockedSet(x.clients)|
    && x.byType.Keys == {BList, BZSet, BStream}
    && forall t <- x.byType :: x.byType[t] == |OfType(x.clients, t)|
  }

  /** The UNBLOCKED flag says exactly who is in the list of unblocked clients. */
  ghost predicate UnblockedOk(x: Index) {
    && Distinct(x.unblockedList)
    && (forall c <- x.unblockedList :: c in x.clients)
    && (forall c <- x.clients :: x.clients[c].unblocked <==> c in x.unblockedList)
  }

  /** Each ready key is queued once; pending are the keys of the list being served. */
  ghost predicate ReadyOk(x: Index, pending: seq<Key>) {
    && Distinct(pending + x.ready)
    && forall k :: k in x.readySet <==> k in pending + x.ready
  }

  /** The index agrees in both directions. */
  ghost predicate WaitOk(x: Index) {
    && (forall c <- x.clients :: ClientOk(x, c))
    && (forall k <- x.blocking :: KeyOk(x, k))
  }

  ghost predicate AllFlagsOk(x: Index) {
    forall c <- x.clients :: FlagsOk(x.clients[c])
  }

  ghost predicate Valid(x: Index) {
    WaitOk(x) && AllFlagsOk(x) && CountsOk(x) && UnblockedOk(x)
  }

  // ---------------------------------------------------------------------------
  // Lists of entries
  // ---------------------------------------------------------------------------

  /** listDelNode */
  function RemoveNode(l: seq<Entry>, node: nat): (r: seq<Entry>)
    ensures forall e :: e in r <==> e in l && e.node != node
  {
    if l == [] then []
    else if l[0].node == node then RemoveNode(l[1..], node)
    else [l[0]] + RemoveNode(l[1..], node)
  }

  lemma {:induction false} RemoveKeepsDistinct(l: seq<Entry>, node: nat)
    requires DistinctNodes(l)
    ensures DistinctNodes(RemoveNode(l, node))
    decreases |l|
  {
    if l != [] {
      RemoveKeepsDistinct(l[1..], node);
      var r := RemoveNode(l[1..], node);
      forall i | 0 <= i < |r|
        ensures r[i].node != l[0].node
      {
        assert r[i] in l[1..];
      }
    }
  }

  /** Only the head has the head's node. */
  lemma RemoveHead(l: seq<Entry>)
    requires l != [] && DistinctNodes(l)
    ensures RemoveNode(l, l[0].node) == l[1..]
  {
    RemoveAbsent(l[1..], l[0].node);
  }

  lemma {:induction false} RemoveAbsent(l: seq<Entry>, node: nat)
    requires forall i :: 0 <= i < |l| ==> l[i].node != node
    ensures RemoveNode(l, node) == l
    decreases |l|
  {
    if l != [] {
      RemoveAbsent(l[1..], node);
    }
  }

  // ---------------------------------------------------------------------------
  // Operations
  // ---------------------------------------------------------------------------

  /** One key of blockForKeys; a key given twice is ignored. */
  function AddKey(x: Index, c: ClientId, k: Key, streamId: nat): Index
    requires c in x.clients
  {
    var s := x.clients[c];
    if k in s.keys then x else
    var l := if k in x.blocking then x.blocking[k] else [];
    x.(clients := x.clients[c := s.(keys := s.keys[k := BkInfo(x.nextNode, streamId)])],
       blocking := x.blocking[k := l + [Entry(x.nextNode, c)]],
       nextNode := x.nextNode + 1)
  }

  /** blockClient */
  function MarkBlocked(x: Index, c: ClientId, t: BType): Index
    requires c in x.clients && t in x.byType
  {
    x.(clients := x.clients[c := x.clients[c].(blocked := true, btype := t)],
       blockedCount := x.blockedCount + 1,
       byType := x.byType[t := x.byType[t] + 1])
  }

  /** The lists after a client's nodes are deleted from those of the given keys; empty lists are dropped. */
  function DropNodes(blocking: map<Key, seq<Entry>>, keys: map<Key, BkInfo>): map<Key, seq<Entry>> {
    map k | k in blocking && (k in keys ==> RemoveNode(blocking[k], keys[k].node) != [])
      :: if k in keys then RemoveNode(blocking[k], keys[k].node) else blocking[k]
  }

  /** queueClientForReprocessing */
  function QueueUnblocked(x: Index, c: ClientId): Index
    requires c in x.clients
  {
    if x.clients[c].unblocked then x else
    x.(clients := x.clients[c := x.clients[c].(unblocked := true)], unblockedList := x.unblockedList + [c])
  }

  /** unblockClient, for a client blocked on data. */
  function Unblock(x: Index, c: ClientId): Index
    requires c in x.clients && x.clients[c].btype in x.byType
  {
    var s := x.clients[c];
    QueueUnblocked(
      x.(blocking := DropNodes(x.blocking, s.keys),
         clients := x.clients[c := s.(keys := map[], target := None, inGroup := false, blocked := false,
           btype := BNone)],
         blockedCount := x.blockedCount - 1,
         byType := x.byType[s.btype := x.byType[s.btype] - 1]),
      c)
  }

  /** signalKeyAsReady */
  function Signal(x: Index, k: Key): Index {
    if k !in x.blocking || k in x.readySet then x
    else x.(ready := x.ready + [k], readySet := x.readySet + {k})
  }

  /** listRotateHeadToTail on a key's list of clients. */
  function Rotate(x: Index, k: Key): Index
    requires k in x.blocking && x.blocking[k] != []
  {
    x.(blocking := x.blocking[k := x.blocking[k][1..] + [x.blocking[k][0]]])
  }

  // ---------------------------------------------------------------------------
  // They keep the invariant
  // ---------------------------------------------------------------------------

  lemma UnblockKeepsClient(x: Index, c: ClientId, d: ClientId)
    requires WaitOk(x) && c in x.clients && x.clients[c].btype in x.byType && d in x.clients
    ensures ClientOk(Unblock(x, c), d)
  {
    var y := Unblock(x, c);
    assert ClientOk(x, c) && ClientOk(x, d);
    if d != c {
      var s := x.clients[d];
      assert y.clients[d] == s;
      forall k <- s.keys
        ensures k in y.blocking && Entry(s.keys[k].node, d) in y.blocking[k]
      {
        var e := Entry(s.keys[k].node, d);
        assert e in x.blocking[k];
        if k in x.clients[c].keys {
          assert KeyOk(x, k);
          OtherNode(x, k, c, d);
          assert e in RemoveNode(x.blocking[k], x.clients[c].keys[k].node);
        }
      }
    }
  }

  /** Two clients waiting for one key have different nodes in its list. */
  lemma OtherNode(x: Index, k: Key, c: ClientId, d: ClientId)
    requires k in x.blocking && KeyOk(x, k) && c != d && c in x.clients && d in x.clients
    requires k in x.clients[c].keys && Entry(x.clients[c].keys[k].node, c) in x.blocking[k]
    requires k in x.clients[d].keys && Entry(x.clients[d].keys[k].node, d) in x.blocking[k]
    ensures x.clients[c].keys[k].node != x.clients[d].keys[k].node
  {
    var e, f := Entry(x.clients[c].keys[k].node, c), Entry(x.clients[d].keys[k].node, d);
    var i :| 0 <= i < |x.blocking[k]| && x.blocking[k][i] == e;
    var j :| 0 <= j < |x.blocking[k]| && x.blocking[k][j] == f;
  }

  lemma UnblockKeepsKey(x: Index, c: ClientId, k: Key)
    requires WaitOk(x) && c in x.clients && x.clients[c].btype in x.byType && k in Unblock(x, c).blocking
    ensures KeyOk(Unblock(x, c), k)
  {
    var y := Unblock(x, c);
    assert KeyOk(x, k) && ClientOk(x, c);
    if k in x.clients[c].keys {
      RemoveKeepsDistinct(x.blocking[k], x.clients[c].keys[k].node);
    }
  }

  lemma UnblockKeepsWaiting(x: Index, c: ClientId)
    requires WaitOk(x) && c in x.clients && x.clients[c].btype in x.byType
    ensures WaitOk(Unblock(x, c))
  {
    hide ClientOk, KeyOk, Unblock;
    UnblockDomain(x, c);
    forall d <- Unblock(x, c).clients ensures ClientOk(Unblock(x, c), d) { UnblockKeepsClient(x, c, d); }
    forall k <- Unblock(x, c).blocking ensures KeyOk(Unblock(x, c), k) { UnblockKeepsKey(x, c, k); }
  }

  lemma UnblockDomain(x: Index, c: ClientId)
    requires c in x.clients && x.clients[c].btype in x.byType
    ensures Unblock(x, c).clients.Keys == x.clients.Keys
  {
  }

  lemma CountUpdate(clients: map<ClientId, Client>, c: ClientId, s: Client)
    requires c in clients
    ensures clients[c].blocked && !s.blocked ==> |BlockedSet(clients[c := s])| == |BlockedSet(clients)| - 1
    ensures !clients[c].blocked && s.blocked ==> |BlockedSet(clients[c := s])| == |BlockedSet(clients)| + 1
    ensures clients[c].blocked == s.blocked ==> |BlockedSet(clients[c := s])| == |BlockedSet(clients)|
  {
    var before, after := BlockedSet(clients), BlockedSet(clients[c := s]);
    if clients[c].blocked && !s.blocked {
      assert after == before - {c};
    } else if !clients[c].blocked && s.blocked {
      assert after == before + {c};
    } else {
      assert after == before;
    }
  }

  lemma TypeUpdate(clients: map<ClientId, Client>, c: ClientId, s: Client, t: BType)
    requires c in clients
    ensures clients[c].btype == t != s.btype ==> |OfType(clients[c := s], t)| == |OfType(clients, t)| - 1
    ensures clients[c].btype != t == s.btype ==> |OfType(clients[c := s], t)| == |OfType(clients, t)| + 1
    ensures (clients[c].btype == t) == (s.btype == t) ==> |OfType(clients[c := s], t)| == |OfType(clients, t)|
  {
    var before, after := OfType(clients, t), OfType(clients[c := s], t);
    assert c in before <==> clients[c].btype == t;
    assert c in after <==> s.btype == t;
    assert after - {c} == before - {c};
    CountWithout(before, c);
    CountWithout(after, c);
  }

  /** Replacing one client moves the counters by what changed for it. */
  lemma CountsUpdate(x: Index, c: ClientId, s: Client, count: int, byType: map<BType, int>)
    requires CountsOk(x) && c in x.clients && byType.Keys == x.byType.Keys
    requires count == x.blockedCount + (if s.blocked then 1 else 0) - (if x.clients[c].blocked then 1 else 0)
    requires forall t <- byType :: byType[t] ==
               x.byType[t] + (if s.btype == t then 1 else 0) - (if x.clients[c].btype == t then 1 else 0)
    ensures CountsOk(x.(clients := x.clients[c := s], blockedCount := count, byType := byType))
  {
    CountUpdate(x.clients, c, s);
    forall t <- byType
      ensures byType[t] == |OfType(x.clients[c := s], t)|
    {
      TypeUpdate(x.clients, c, s, t);
    }
  }

  /** The flags, counters and lists that do not depend on the lists of waiting clients. */
  lemma FrameCounts(x: Index, y: Index)
    requires CountsOk(x) && y.clients == x.clients && y.blockedCount == x.blockedCount && y.byType == x.byType
    ensures CountsOk(y)
  {
  }

  lemma QueueKeeps(x: Index, c: ClientId)
    requires CountsOk(x) && UnblockedOk(x) && c in x.clients
    ensures CountsOk(QueueUnblocked(x, c)) && UnblockedOk(QueueUnblocked(x, c))
  {
    if !x.clients[c].unblocked {
      hide CountsOk;
      CountsUpdate(x, c, x.clients[c].(unblocked := true), x.blockedCount, x.byType);
      FrameCounts(x.(clients := x.clients[c := x.clients[c].(unblocked := true)]), QueueUnblocked(x, c));
    }
  }

  lemma UnblockKeepsCounts(x: Index, c: ClientId)
    requires CountsOk(x) && UnblockedOk(x) && c in x.clients && x.clients[c].blocked && x.clients[c].btype in x.byType
    ensures CountsOk(Unblock(x, c)) && UnblockedOk(Unblock(x, c))
  {
    hide CountsOk;
    var s := x.clients[c];
    var s' := s.(keys := map[], target := None, inGroup := false, blocked := false, btype := BNone);
    var byType := x.byType[s.btype := x.byType[s.btype] - 1];
    CountsHaveTypes(x);
    CountsUpdate(x, c, s', x.blockedCount - 1, byType);
    var y := x.(clients := x.clients[c := s'], blockedCount := x.blockedCount - 1, byType := byType);
    var z := y.(blocking := DropNodes(x.blocking, s.keys));
    FrameCounts(y, z);
    QueueKeeps(z, c);
  }

  lemma CountsHaveTypes(x: Index)
    requires CountsOk(x)
    ensures x.byType.Keys == {BList, BZSet, BStream}
  {
  }

  /** Unblocking a client keeps the whole invariant; nobody else is touched. */
  lemma UnblockKeepsValid(x: Index, c: ClientId)
    requires Valid(x) && c in x.clients && x.clients[c].blocked
    ensures x.clients[c].btype in x.byType && Valid(Unblock(x, c))
    ensures Unblock(x, c).blockedCount == x.blockedCount - 1
    ensures Unblock(x, c).clients.Keys == x.clients.Keys
    ensures forall d <- x.clients | d != c :: Unblock(x, c).clients[d] == x.clients[d]
    ensures !Unblock(x, c).clients[c].blocked && Unblock(x, c).clients[c].unblocked
  {
    hide WaitOk, CountsOk, UnblockedOk;
    assert FlagsOk(x.clients[c]);
    CountsHaveTypes(x);
    UnblockKeepsWaiting(x, c);
    UnblockKeepsCounts(x, c);
    UnblockFrame(x, c);
  }

  lemma UnblockFrame(x: Index, c: ClientId)
    requires AllFlagsOk(x) && c in x.clients && x.clients[c].btype in x.byType
    ensures
      var y := Unblock(x, c);
      && AllFlagsOk(y) && y.blockedCount == x.blockedCount - 1 && y.clients.Keys == x.clients.Keys
      && (forall d <- x.clients | d != c :: y.clients[d] == x.clients[d])
      && !y.clients[c].blocked && y.clients[c].unblocked
  {
  }

  // Blocking

  lemma AddKeyKeepsWaiting(x: Index, c: ClientId, k: Key, streamId: nat)
    requires WaitOk(x) && c in x.clients
    ensures WaitOk(AddKey(x, c, k, streamId))
  {
    var y := AddKey(x, c, k, streamId);
    if k !in x.clients[c].keys {
      forall d <- y.clients
        ensures ClientOk(y, d)
      {
        assert ClientOk(x, d);
      }
      forall q <- y.blocking
        ensures KeyOk(y, q)
      {
        AddKeyKeepsKey(x, c, k, streamId, q);
      }
    }
  }

  lemma AddKeyKeepsKey(x: Index, c: ClientId, k: Key, streamId: nat, q: Key)
    requires WaitOk(x) && c in x.clients && k !in x.clients[c].keys && q in AddKey(x, c, k, streamId).blocking
    ensures KeyOk(AddKey(x, c, k, streamId), q)
  {
    var y := AddKey(x, c, k, streamId);
    if q in x.blocking {
      assert KeyOk(x, q);
      hide WaitOk;
      AddEntryKeepsDistinct(x.blocking[q], Entry(x.nextNode, c));
    }
  }

  lemma AddEntryKeepsDistinct(l: seq<Entry>, e: Entry)
    requires DistinctNodes(l) && forall d <- l :: d.node < e.node
    ensures DistinctNodes(l + [e]) && forall d <- l + [e] :: d in l || d == e
  {
    assert forall i :: 0 <= i < |l| ==> l[i] in l;
  }

  lemma MarkKeepsValid(x: Index, c: ClientId, t: BType)
    requires WaitOk(x) && CountsOk(x) && UnblockedOk(x) && c in x.clients && t in x.byType
    requires !x.clients[c].blocked && x.clients[c].btype == BNone && x.clients[c].keys != map[]
    requires forall d <- x.clients | d != c :: FlagsOk(x.clients[d])
    ensures Valid(MarkBlocked(x, c, t))
  {
    hide WaitOk, CountsOk, UnblockedOk, FlagsOk;
    CountsHaveTypes(x);
    CountsUpdate(x, c, x.clients[c].(blocked := true, btype := t), x.blockedCount + 1, x.byType[t := x.byType[t] + 1]);
    MarkKeepsWaiting(x, c, t);
    MarkKeepsUnblocked(x, c, t);
    assert FlagsOk(x.clients[c].(blocked := true, btype := t)) by { MarkedFlags(x.clients[c], t); }
  }

  lemma MarkedFlags(s: Client, t: BType)
    requires s.keys != map[] && t != BNone
    ensures FlagsOk(s.(blocked := true, btype := t))
  {
  }

  lemma MarkKeepsUnblocked(x: Index, c: ClientId, t: BType)
    requires UnblockedOk(x) && c in x.clients && t in x.byType
    ensures UnblockedOk(MarkBlocked(x, c, t))
  {
  }

  lemma MarkKeepsWaiting(x: Index, c: ClientId, t: BType)
    requires WaitOk(x) && c in x.clients && t in x.byType
    ensures WaitOk(MarkBlocked(x, c, t))
  {
    var y := MarkBlocked(x, c, t);
    forall d <- y.clients ensures ClientOk(y, d) { assert ClientOk(x, d); }
    forall k <- y.blocking ensures KeyOk(y, k) { assert KeyOk(x, k); }
  }

  // Rotating and signalling

  lemma RotateKeepsValid(x: Index, k: Key)
    requires Valid(x) && k in x.blocking && x.blocking[k] != []
    ensures Valid(Rotate(x, k))
  {
    RotateKeepsWaiting(x, k);
    FrameCounts(x, Rotate(x, k));
  }

  lemma RotateKeepsWaiting(x: Index, k: Key)
    requires WaitOk(x) && k in x.blocking && x.blocking[k] != []
    ensures WaitOk(Rotate(x, k))
  {
    var y := Rotate(x, k);
    var l, r := x.blocking[k], y.blocking[k];
    assert KeyOk(x, k);
    assert forall e :: e in r <==> e in l by {
      assert l == [l[0]] + l[1..];
    }
    forall d <- y.clients ensures ClientOk(y, d) { assert ClientOk(x, d); }
    forall q <- y.blocking ensures KeyOk(y, q) { assert KeyOk(x, q); }
  }

  lemma SignalKeepsValid(x: Index, k: Key)
    requires Valid(x)
    ensures Valid(Signal(x, k))
  {
    var y := Signal(x, k);
    forall d <- y.clients ensures ClientOk(y, d) { assert ClientOk(x, d); }
    forall q <- y.blocking ensures KeyOk(y, q) { assert KeyOk(x, q); }
  }

  /** A key is queued at most once, whatever is already being served. */
  lemma SignalKeepsReady(x: Index, pending: seq<Key>, k: Key)
    requires ReadyOk(x, pending)
    ensures ReadyOk(Signal(x, k), pending)
  {
    var y := Signal(x, k);
    if y != x {
      assert pending + y.ready == (pending + x.ready) + [k];
    }
  }
}
