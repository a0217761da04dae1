/** Serving the clients of a stream while iterating over their list. */
module BlockedStreams {
  import opened Prelude
  import opened BlockedIndex
  import opened BlockedKeyspace
  import opened BlockedServing
  import opened BlockedFairness
  import opened BlockedWaits
  import opened BlockedSteps

  /** Every entry of the list is either kept or served, each in order. */
  ghost predicate Splits(l: seq<Entry>, kept: seq<Entry>, served: seq<ClientId>)
    decreases |l|
  {
    if l == [] then kept == [] && served == []
    else
      var n := |l| - 1;
      || (kept != [] && kept[|kept| - 1] == l[n] && Splits(l[..n], kept[..|kept| - 1], served))
      || (served != [] && served[|served| - 1] == l[n].client && Splits(l[..n], kept, served[..|served| - 1]))
  }

  /** The stream has what the client waits for, or the client reads through a consumer group. */
  predicate Awaited(x: Index, k: Key, c: ClientId, v: Value) {
    && v.StreamVal? && c in x.clients && x.clients[c].btype == BStream
    && (x.clients[c].inGroup || (k in x.clients[c].keys && v.lastId > x.clients[c].keys[k].streamId))
  }

  /** The clients not looked at yet are as they were. */
  ghost predicate Untouched(x0: Index, x: Index, l: seq<Entry>, i: nat) {
    forall j :: i <= j < |l| ==>
      l[j].client in x0.clients && l[j].client in x.clients && x.clients[l[j].client] == x0.clients[l[j].client]
  }

  ghost predicate NoneServable(x: Index, k: Key, kept: seq<Entry>, v: Value) {
    forall e <- kept :: !CanServe(x, k, e, v)
  }

  /** The group's last ID replaces the ID the client waits for. */
  function MoveId(x: Index, c: ClientId, k: Key, id: nat): Index
    requires c in x.clients && k in x.clients[c].keys
  {
    var s := x.clients[c];
    x.(clients := x.clients[c := s.(keys := s.keys[k := BkInfo(s.keys[k].node, id)])])
  }

  lemma StreamStart(x: Index, k: Key, v: Value)
    requires Valid(x)
    ensures Waiting(x, k) == if k in x.blocking then x.blocking[k] else []
    ensures WaitOk(x) && NeverBlocks(x, x) && Splits([], [], []) && NoneServable(x, k, [], v)
    ensures Untouched(x, x, Waiting(x, k), 0)
  {
    hide CountsOk, UnblockedOk;
    forall j | 0 <= j < |Waiting(x, k)|
      ensures Waiting(x, k)[j].client in x.clients
    {
      WaiterKnown(x, k, Waiting(x, k)[j]);
    }
  }

  lemma SplitsNext(l: seq<Entry>, i: nat, kept: seq<Entry>, served: seq<ClientId>)
    requires i < |l| && Splits(l[..i], kept, served)
    ensures Splits(l[..i + 1], kept + [l[i]], served) && Splits(l[..i + 1], kept, served + [l[i].client])
  {
    assert l[..i + 1][..i] == l[..i] && (kept + [l[i]])[..|kept|] == kept;
    assert (served + [l[i].client])[..|served|] == served;
  }

  lemma StreamNext(x0: Index, x: Index, k: Key, kept: seq<Entry>, served: seq<ClientId>, l: seq<Entry>, i: nat,
      v: Value)
    requires Valid(x) && i < |l| && Waiting(x, k) == kept + l[i..] && Splits(l[..i], kept, served)
    requires Untouched(x0, x, l, i) && NoneServable(x, k, kept, v) && v.StreamVal?
    ensures l[i].client in x.clients && x.clients[l[i].client].blocked && k in x.clients[l[i].client].keys
    ensures l[i].client in x0.clients && x.clients[l[i].client] == x0.clients[l[i].client]
    ensures kept + l[i..] == kept + [l[i]] + l[i + 1..]
    ensures Splits(l[..i + 1], kept + [l[i]], served) && Splits(l[..i + 1], kept, served + [l[i].client])
    ensures Untouched(x0, x, l, i + 1)
    ensures x.clients[l[i].client].btype != BStream ==> NoneServable(x, k, kept + [l[i]], v)
    ensures
      var s := x.clients[l[i].client];
      s.btype == BStream && (s.inGroup || v.lastId > s.keys[k].streamId) ==> Awaited(x0, k, l[i].client, v)
  {
    hide Splits, CountsOk, UnblockedOk, WaitOk, AllFlagsOk;
    SplitsNext(l, i, kept, served);
    WaiterRecorded(x, k, |kept|);
    assert l[i..] == [l[i]] + l[i + 1..];
    WaitersAreBlocked(x, k, |kept|);
    if x.clients[l[i].client].btype != BStream {
      KeepEntry(x, k, kept, l[i], v);
    }
  }

  lemma WaiterRecorded(x: Index, k: Key, i: nat)
    requires WaitOk(x) && i < |Waiting(x, k)|
    ensures
      var e := Waiting(x, k)[i];
      e.client in x.clients && k in x.clients[e.client].keys && x.clients[e.client].keys[k].node == e.node
  {
    assert KeyOk(x, k);
    assert Waiting(x, k)[i] in Waiting(x, k);
  }

  lemma KeepEntry(x: Index, k: Key, kept: seq<Entry>, e: Entry, v: Value)
    requires NoneServable(x, k, kept, v) && v.StreamVal? && e.client in x.clients
    requires
      var s := x.clients[e.client];
      s.btype != BStream || s.inGroup || (k in s.keys && v.lastId <= s.keys[k].streamId)
    ensures NoneServable(x, k, kept + [e], v)
  {
  }

  lemma MoveKeepsWaiting(x: Index, c: ClientId, k: Key, id: nat)
    requires WaitOk(x) && c in x.clients && k in x.clients[c].keys
    ensures WaitOk(MoveId(x, c, k, id))
  {
    var y := MoveId(x, c, k, id);
    forall d <- y.clients ensures ClientOk(y, d) { assert ClientOk(x, d); }
    forall q <- y.blocking ensures KeyOk(y, q) { assert KeyOk(x, q); }
  }

  lemma MoveKeepsValid(x: Index, c: ClientId, k: Key, id: nat)
    requires Valid(x) && c in x.clients && k in x.clients[c].keys
    ensures Valid(MoveId(x, c, k, id))
  {
    hide CountsOk, WaitOk;
    var y := MoveId(x, c, k, id);
    CountsUpdate(x, c, y.clients[c], x.blockedCount, x.byType);
    assert y == x.(clients := x.clients[c := y.clients[c]], blockedCount := x.blockedCount, byType := x.byType);
    assert FlagsOk(x.clients[c]);
    assert y.clients[c].keys != map[];
    MoveKeepsWaiting(x, c, k, id);
  }

  /** A consumer group's client cannot be starved, whatever ID it waits for. */
  lemma MoveServesAsBefore(x: Index, c: ClientId, k: Key, id: nat, q: Key, e: Entry, v: Value)
    requires c in x.clients && k in x.clients[c].keys && x.clients[c].inGroup
    ensures CanServe(MoveId(x, c, k, id), q, e, v) == CanServe(x, q, e, v)
  {
  }

  lemma MoveKeepsFair(x: Index, db: map<Key, Value>, serving: set<Key>, c: ClientId, k: Key, id: nat)
    requires Fair(x, db, serving) && c in x.clients && k in x.clients[c].keys && x.clients[c].inGroup
    ensures Fair(MoveId(x, c, k, id), db, serving)
  {
    hide CanServe;
    var y := MoveId(x, c, k, id);
    forall q <- db | q !in serving && Starved(y, q, db[q])
      ensures Starved(x, q, db[q])
    {
      var e :| e in Waiting(y, q) && CanServe(y, q, e, db[q]);
      MoveServesAsBefore(x, c, k, id, q, e, db[q]);
    }
  }

  lemma MoveKeepsAll(x0: Index, x: Index, db: map<Key, Value>, pending: seq<Key>, k: Key, kept: seq<Entry>,
      l: seq<Entry>, i: nat, id: nat)
    requires Valid(x) && ReadyOk(x, pending) && NeverBlocks(x0, x) && i < |l| && Waiting(x, k) == kept + l[i..]
    requires Untouched(x0, x, l, i) && l == Waiting(x0, k) && WaitOk(x0) && k in db && NoneServable(x, k, kept, db[k])
    requires
      var c := l[i].client;
      c in x.clients && x.clients[c].blocked && x.clients[c].inGroup && k in x.clients[c].keys
    ensures
      var y := MoveId(x, l[i].client, k, id);
      && Valid(y) && ReadyOk(y, pending) && NeverBlocks(x0, y) && Untouched(x0, y, l, i + 1)
      && Waiting(y, k) == Waiting(x, k) && y.ready == x.ready && y.blockedCount == x.blockedCount
      && l[i].client in y.clients && y.clients[l[i].client].blocked && y.clients[l[i].client].inGroup
      && k in y.clients[l[i].client].keys
      && NoneServable(y, k, kept, db[k]) && (Fair(x, db, {k}) ==> Fair(y, db, {k}))
  {
    hide Valid, Fair, CanServe, WaitOk;
    var c := l[i].client;
    var y := MoveId(x, c, k, id);
    MoveKeepsValid(x, c, k, id);
    if Fair(x, db, {k}) {
      MoveKeepsFair(x, db, {k}, c, k, id);
    }
    forall e <- kept
      ensures !CanServe(y, k, e, db[k])
    {
      MoveServesAsBefore(x, c, k, id, k, e, db[k]);
    }
    MoveNeverBlocks(x0, x, c, k, id);
    UntouchedNext(x0, x, y, k, l, i);
  }

  lemma MoveNeverBlocks(x0: Index, x: Index, c: ClientId, k: Key, id: nat)
    requires NeverBlocks(x0, x) && c in x.clients && k in x.clients[c].keys
    ensures NeverBlocks(x0, MoveId(x, c, k, id))
  {
    var y := MoveId(x, c, k, id);
    assert SameWait(x.clients[c], y.clients[c]);
    assert forall d <- x.clients :: SameWait(x.clients[d], x.clients[d]);
    NeverBlocksTrans(x0, x, y);
  }

  lemma {:induction false} RemoveMiddle(a: seq<Entry>, e: Entry, b: seq<Entry>)
    requires DistinctNodes(a + [e] + b)
    ensures RemoveNode(a + [e] + b, e.node) == a + b
    decreases |a|
  {
    var l := a + [e] + b;
    if a == [] {
      assert l == [e] + b;
      RemoveHead(l);
    } else {
      assert l[0] == a[0] && l[|a|] == e;
      assert l[1..] == a[1..] + [e] + b;
      RemoveMiddle(a[1..], e, b);
      assert a + b == [a[0]] + (a[1..] + b);
    }
  }

  /** Deleting the node just returned leaves the iterator on exactly the remaining entries. */
  lemma UnblockMiddle(x: Index, k: Key, kept: seq<Entry>, l: seq<Entry>, i: nat)
    requires WaitOk(x) && i < |l| && Waiting(x, k) == kept + l[i..]
    requires l[i].client in x.clients && x.clients[l[i].client].btype in x.byType
    ensures Waiting(Unblock(x, l[i].client), k) == kept + l[i + 1..]
  {
    WaiterRecorded(x, k, |kept|);
    assert KeyOk(x, k);
    assert kept + l[i..] == kept + [l[i]] + l[i + 1..];
    RemoveMiddle(kept, l[i], l[i + 1..]);
  }

  lemma UnblockNeverBlocks(x0: Index, x: Index, c: ClientId)
    requires NeverBlocks(x0, x) && c in x.clients && x.clients[c].btype in x.byType
    ensures NeverBlocks(x0, Unblock(x, c))
  {
    hide SameWait;
  }

  lemma UnblockServesNobody(x: Index, c: ClientId, k: Key, kept: seq<Entry>, v: Value)
    requires NoneServable(x, k, kept, v) && c in x.clients && x.clients[c].btype in x.byType
    ensures NoneServable(Unblock(x, c), k, kept, v)
  {
    forall e <- kept
      ensures !CanServe(Unblock(x, c), k, e, v)
    {
      assert !CanServe(x, k, e, v);
    }
  }

  lemma RemoveFromMiddle(x0: Index, x: Index, db: map<Key, Value>, pending: seq<Key>, k: Key, kept: seq<Entry>,
      l: seq<Entry>, i: nat)
    requires Valid(x) && ReadyOk(x, pending) && NeverBlocks(x0, x) && i < |l| && Waiting(x, k) == kept + l[i..]
    requires Untouched(x0, x, l, i + 1) && l == Waiting(x0, k) && WaitOk(x0) && k in db
    requires NoneServable(x, k, kept, db[k])
    requires l[i].client in x.clients && x.clients[l[i].client].blocked
    ensures x.clients[l[i].client].btype in x.byType
    ensures
      var y := Unblock(x, l[i].client);
      && Valid(y) && ReadyOk(y, pending) && NeverBlocks(x0, y) && Untouched(x0, y, l, i + 1)
      && y.blockedCount == x.blockedCount - 1 && y.ready == x.ready && Waiting(y, k) == kept + l[i + 1..]
      && NoneServable(y, k, kept, db[k]) && (Fair(x, db, {k}) ==> Fair(y, db, {k}))
  {
    hide ReadyOk, NeverBlocks, Fair, NoneServable, WaitOk, Waiting, Unblock, AllFlagsOk, CountsOk, UnblockedOk;
    var c := l[i].client;
    UnblockNeeds(x, c);
    UnblockKeepsRest(x, db, pending, k, c);
    UnblockKeepsValid(x, c);
    UnblockMiddle(x, k, kept, l, i);
    UnblockNeverBlocks(x0, x, c);
    UnblockServesNobody(x, c, k, kept, db[k]);
    UntouchedNext(x0, x, Unblock(x, c), k, l, i);
  }

  lemma UntouchedNext(x0: Index, x: Index, y: Index, k: Key, l: seq<Entry>, i: nat)
    requires i < |l| && Untouched(x0, x, l, i + 1) && WaitOk(x0) && l == Waiting(x0, k)
    requires y.clients.Keys == x.clients.Keys
    requires forall d <- x.clients | d != l[i].client :: y.clients[d] == x.clients[d]
    ensures Untouched(x0, y, l, i + 1)
  {
    hide WaitOk;
    forall j | i + 1 <= j < |l|
      ensures l[j].client != l[i].client
    {
      OncePerKey(x0, k, i, j);
    }
  }

  lemma StreamDone(x: Index, db: map<Key, Value>, k: Key, kept: seq<Entry>)
    requires k in db && db[k].StreamVal? && Waiting(x, k) == kept && NoneServable(x, k, kept, db[k])
    ensures Fair(x, db, {k}) ==> Fair(x, db, {})
  {
    if Fair(x, db, {k}) {
      DoneServing(x, db, k);
    }
  }
}
