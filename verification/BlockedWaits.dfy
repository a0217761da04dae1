/** Blocking a client on several keys, and what unblocking it looks up. */
module BlockedWaits {
  import opened Prelude
  import opened BlockedIndex
  import opened BlockedKeyspace
  import opened BlockedServing
  import opened BlockedFairness

  /** The loop of blockForKeys over the first keys. */
  function AddKeys(x: Index, c: ClientId, keys: seq<Key>, ids: seq<nat>): (y: Index)
    requires c in x.clients && |ids| == |keys|
    ensures y.clients.Keys == x.clients.Keys
    decreases |keys|
  {
    if keys == [] then x
    else
      var n := |keys| - 1;
      AddKey(AddKeys(x, c, keys[..n], ids[..n]), c, keys[n], ids[n])
  }

  lemma AddKeysNext(x: Index, c: ClientId, keys: seq<Key>, ids: seq<nat>, j: nat)
    requires c in x.clients && |ids| == |keys| && j < |keys|
    ensures AddKeys(x, c, keys[..j + 1], ids[..j + 1]) == AddKey(AddKeys(x, c, keys[..j], ids[..j]), c, keys[j], ids[j])
  {
    assert keys[..j + 1][..j] == keys[..j] && ids[..j + 1][..j] == ids[..j];
  }

  /** Only the client's key table and the lists change, and the table has exactly the given keys. */
  ghost predicate KeysOnly(x: Index, y: Index, c: ClientId, keys: seq<Key>)
    requires c in x.clients
  {
    && y == x.(clients := y.clients, blocking := y.blocking, nextNode := y.nextNode)
    && y.clients.Keys == x.clients.Keys
    && y.clients[c] == x.clients[c].(keys := y.clients[c].keys)
    && (forall d <- x.clients | d != c :: y.clients[d] == x.clients[d])
    && (forall k :: k in y.clients[c].keys <==> k in keys)
  }

  /** A repeated key keeps its first ID. */
  ghost predicate FirstIds(y: Index, c: ClientId, keys: seq<Key>, ids: seq<nat>)
    requires c in y.clients && |ids| == |keys| && forall k <- keys :: k in y.clients[c].keys
  {
    forall j :: 0 <= j < |keys| && keys[j] !in keys[..j] ==> y.clients[c].keys[keys[j]].streamId == ids[j]
  }

  /** The client is last in the list of every key given, once; the lists of the other keys are as before. */
  ghost predicate LastInLists(x: Index, y: Index, c: ClientId, keys: seq<Key>)
    requires c in y.clients && forall k <- keys :: k in y.clients[c].keys
  {
    forall k :: Waiting(y, k) == Waiting(x, k) + if k in keys then [Entry(y.clients[c].keys[k].node, c)] else []
  }

  ghost predicate WaitsFor(x: Index, y: Index, c: ClientId, keys: seq<Key>, ids: seq<nat>)
    requires c in x.clients && |ids| == |keys|
  {
    KeysOnly(x, y, c, keys) && FirstIds(y, c, keys, ids) && LastInLists(x, y, c, keys)
  }

  lemma AddKeyWaits(x: Index, y: Index, c: ClientId, keys: seq<Key>, k: Key, ids: seq<nat>, id: nat)
    requires c in x.clients && |ids| == |keys| && WaitsFor(x, y, c, keys, ids)
    ensures WaitsFor(x, AddKey(y, c, k, id), c, keys + [k], ids + [id])
  {
    hide LastInLists, FirstIds;
    assert KeysOnly(x, AddKey(y, c, k, id), c, keys + [k]);
    AddKeyIds(y, c, keys, k, ids, id);
    AddKeyLists(x, y, c, keys, k, id);
  }

  lemma AddKeyIds(y: Index, c: ClientId, keys: seq<Key>, k: Key, ids: seq<nat>, id: nat)
    requires c in y.clients && |ids| == |keys| && (forall q :: q in y.clients[c].keys <==> q in keys)
    requires FirstIds(y, c, keys, ids)
    ensures forall q <- keys + [k] :: q in AddKey(y, c, k, id).clients[c].keys
    ensures FirstIds(AddKey(y, c, k, id), c, keys + [k], ids + [id])
  {
    var z, ks := AddKey(y, c, k, id), keys + [k];
    forall j | 0 <= j < |ks| && ks[j] !in ks[..j]
      ensures z.clients[c].keys[ks[j]].streamId == (ids + [id])[j]
    {
      if j < |keys| {
        assert ks[..j] == keys[..j];
        assert ks[j] == keys[j];
      } else {
        assert ks[..j] == keys;
      }
    }
  }

  lemma AddKeyLists(x: Index, y: Index, c: ClientId, keys: seq<Key>, k: Key, id: nat)
    requires c in y.clients && (forall q :: q in y.clients[c].keys <==> q in keys)
    requires LastInLists(x, y, c, keys)
    ensures forall q <- keys + [k] :: q in AddKey(y, c, k, id).clients[c].keys
    ensures LastInLists(x, AddKey(y, c, k, id), c, keys + [k])
  {
    var z := AddKey(y, c, k, id);
    forall q
      ensures Waiting(z, q) == Waiting(x, q) + if q in keys + [k] then [Entry(z.clients[c].keys[q].node, c)] else []
    {
      assert Waiting(y, q) == Waiting(x, q) + if q in keys then [Entry(y.clients[c].keys[q].node, c)] else [];
    }
  }

  lemma {:induction false} AddKeysWaits(x: Index, c: ClientId, keys: seq<Key>, ids: seq<nat>)
    requires c in x.clients && |ids| == |keys| && WaitOk(x) && x.clients[c].keys == map[]
    ensures WaitsFor(x, AddKeys(x, c, keys, ids), c, keys, ids)
    ensures WaitOk(AddKeys(x, c, keys, ids))
    decreases |keys|
  {
    hide WaitsFor, WaitOk;
    if keys == [] {
      NoKeysWait(x, c);
    } else {
      var n := |keys| - 1;
      var y := AddKeys(x, c, keys[..n], ids[..n]);
      AddKeysWaits(x, c, keys[..n], ids[..n]);
      assert keys == keys[..n] + [keys[n]] && ids == ids[..n] + [ids[n]];
      AddKeyWaits(x, y, c, keys[..n], keys[n], ids[..n], ids[n]);
      AddKeyKeepsWaiting(y, c, keys[n], ids[n]);
    }
  }

  lemma NoKeysWait(x: Index, c: ClientId)
    requires c in x.clients && x.clients[c].keys == map[]
    ensures WaitsFor(x, x, c, [], [])
  {
  }

  /** What a client waits for besides its keys. */
  datatype Aim = Aim(btype: BType, target: Option<Key>, where: Where, inGroup: bool)

  function Aimed(x: Index, c: ClientId, aim: Aim): Index
    requires c in x.clients
  {
    x.(clients := x.clients[c := x.clients[c].(target := aim.target, where := aim.where, inGroup := aim.inGroup)])
  }

  /** The client, and only the client, is now blocked: last in the list of every key given, and in no other. */
  ghost predicate BlockedFor(x: Index, y: Index, c: ClientId, aim: Aim, keys: seq<Key>, ids: seq<nat>)
    requires c in x.clients && |ids| == |keys|
  {
    && y.clients.Keys == x.clients.Keys
    && y.clients[c] == x.clients[c].(blocked := true, btype := aim.btype, keys := y.clients[c].keys,
      target := aim.target, where := aim.where, inGroup := aim.inGroup)
    && (forall d <- x.clients | d != c :: y.clients[d] == x.clients[d])
    && (forall k :: k in y.clients[c].keys <==> k in keys)
    && FirstIds(y, c, keys, ids)
    && LastInLists(x, y, c, keys)
    && y.ready == x.ready && y.readySet == x.readySet && y.unblockedList == x.unblockedList
  }

  lemma AimKeepsValid(x: Index, c: ClientId, aim: Aim)
    requires Valid(x) && c in x.clients
    ensures Valid(Aimed(x, c, aim))
  {
    hide CountsOk;
    var s := x.clients[c].(target := aim.target, where := aim.where, inGroup := aim.inGroup);
    var y := Aimed(x, c, aim);
    CountsUpdate(x, c, s, x.blockedCount, x.byType);
    assert y == x.(clients := x.clients[c := s], blockedCount := x.blockedCount, byType := x.byType);
    assert FlagsOk(x.clients[c]);
    forall d <- y.clients ensures ClientOk(y, d) { assert ClientOk(x, d); }
    forall k <- y.blocking ensures KeyOk(y, k) { assert KeyOk(x, k); }
  }

  lemma BlockedAfterKeys(x: Index, c: ClientId, aim: Aim, keys: seq<Key>, ids: seq<nat>)
    requires Valid(x) && c in x.clients && !x.clients[c].blocked && |ids| == |keys| && keys != [] && aim.btype != BNone
    ensures
      var y := AddKeys(Aimed(x, c, aim), c, keys, ids);
      && c in y.clients && aim.btype in y.byType && Valid(MarkBlocked(y, c, aim.btype))
      && BlockedFor(x, MarkBlocked(y, c, aim.btype), c, aim, keys, ids)
  {
    hide FirstIds, LastInLists, WaitOk, CountsOk, UnblockedOk, AddKeys, BlockedFor, KeysOnly, Aimed, MarkBlocked;
    var x1 := Aimed(x, c, aim);
    AimKeepsValid(x, c, aim);
    AimedClient(x, c, aim);
    CountsHaveTypes(x1);
    AddKeysWaits(x1, c, keys, ids);
    var y := AddKeys(x1, c, keys, ids);
    KeysKeepRest(x1, y, c, keys);
    KeysOnlyClient(x1, y, c, keys);
    MarkKeepsValid(y, c, aim.btype);
    MarkKeepsLists(x, x1, y, c, aim.btype, keys, ids);
    MarkedIsBlockedFor(x, y, c, aim, keys, ids);
  }

  lemma AimedClient(x: Index, c: ClientId, aim: Aim)
    requires c in x.clients && FlagsOk(x.clients[c])
    ensures
      var y := Aimed(x, c, aim);
      && c in y.clients && y.clients[c].keys == x.clients[c].keys && y.clients[c].btype == x.clients[c].btype
      && y.clients[c].blocked == x.clients[c].blocked && y.blocking == x.blocking
  {
  }

  lemma KeysOnlyClient(x: Index, y: Index, c: ClientId, keys: seq<Key>)
    requires c in x.clients && KeysOnly(x, y, c, keys) && keys != []
    ensures c in y.clients && y.clients[c].keys != map[] && y.clients[c].blocked == x.clients[c].blocked
    ensures y.clients[c].btype == x.clients[c].btype && y.byType == x.byType
    ensures forall k <- keys :: k in y.clients[c].keys
  {
    assert keys[0] in y.clients[c].keys;
  }

  lemma MarkedIsBlockedFor(x: Index, y: Index, c: ClientId, aim: Aim, keys: seq<Key>, ids: seq<nat>)
    requires c in x.clients && |ids| == |keys| && KeysOnly(Aimed(x, c, aim), y, c, keys) && aim.btype in y.byType
    requires
      var z := MarkBlocked(y, c, aim.btype);
      FirstIds(z, c, keys, ids) && LastInLists(x, z, c, keys)
    ensures BlockedFor(x, MarkBlocked(y, c, aim.btype), c, aim, keys, ids)
  {
    hide FirstIds, LastInLists;
  }

  lemma MarkKeepsLists(x0: Index, x1: Index, y: Index, c: ClientId, t: BType, keys: seq<Key>, ids: seq<nat>)
    requires c in y.clients && t in y.byType && |ids| == |keys| && x1.blocking == x0.blocking
    requires (forall k <- keys :: k in y.clients[c].keys) && FirstIds(y, c, keys, ids) && LastInLists(x1, y, c, keys)
    ensures
      var z := MarkBlocked(y, c, t);
      FirstIds(z, c, keys, ids) && LastInLists(x0, z, c, keys)
  {
    var z := MarkBlocked(y, c, t);
    forall k
      ensures Waiting(z, k) == Waiting(x0, k) + if k in keys then [Entry(z.clients[c].keys[k].node, c)] else []
    {
      assert Waiting(y, k) == Waiting(x1, k) + if k in keys then [Entry(y.clients[c].keys[k].node, c)] else [];
    }
  }

  /** The counters and the unblocked clients do not depend on the key tables. */
  lemma KeysKeepRest(x: Index, y: Index, c: ClientId, keys: seq<Key>)
    requires c in x.clients && CountsOk(x) && UnblockedOk(x) && AllFlagsOk(x) && KeysOnly(x, y, c, keys)
    ensures CountsOk(y) && UnblockedOk(y) && (forall d <- y.clients | d != c :: FlagsOk(y.clients[d]))
  {
    var z := x.(clients := x.clients[c := y.clients[c]]);
    assert z.clients == y.clients;
    hide CountsOk;
    CountsUpdate(x, c, y.clients[c], x.blockedCount, x.byType);
    assert z == x.(clients := x.clients[c := y.clients[c]], blockedCount := x.blockedCount, byType := x.byType);
    FrameCounts(z, y);
  }

  function NobodyBlocked(clients: set<ClientId>): Index {
    Index(map c <- clients :: Client(false, false, BNone, map[], None, Head, false),
      map[], [], {}, [], 0, map[BList := 0, BZSet := 0, BStream := 0], 0)
  }

  lemma StartsValid(clients: set<ClientId>)
    ensures Valid(NobodyBlocked(clients)) && ReadyOk(NobodyBlocked(clients), [])
    ensures Fair(NobodyBlocked(clients), map[], {})
    ensures NobodyBlocked(clients).clients.Keys == clients
  {
    var x := NobodyBlocked(clients);
    assert BlockedSet(x.clients) == {};
    assert forall t <- x.byType :: OfType(x.clients, t) == {};
  }

  /** The lists and the type counter that unblocking looks up are there. */
  lemma UnblockNeeds(x: Index, c: ClientId)
    requires Valid(x) && c in x.clients && x.clients[c].blocked
    ensures x.clients[c].btype in x.byType && x.clients[c].keys != map[] && x.clients[c].keys.Keys <= x.blocking.Keys
  {
    UnblockKeepsValid(x, c);
    assert ClientOk(x, c) && FlagsOk(x.clients[c]);
  }

  lemma NoneDropped(x: Index, c: ClientId)
    requires c in x.clients
    ensures x == x.(blocking := DropNodes(x.blocking, x.clients[c].keys - x.clients[c].keys.Keys))
  {
    assert x.clients[c].keys - x.clients[c].keys.Keys == map[];
    assert DropNodes(x.blocking, map[]) == x.blocking;
  }

  /** The lists after one more of the client's nodes is deleted. */
  lemma DropOne(blocking: map<Key, seq<Entry>>, keys: map<Key, BkInfo>, left: set<Key>, k: Key)
    requires k in left && k in keys && k in blocking
    ensures k in DropNodes(blocking, keys - left) && DropNodes(blocking, keys - left)[k] == blocking[k]
    ensures
      var b := DropNodes(blocking, keys - left);
      var l := RemoveNode(blocking[k], keys[k].node);
      DropNodes(blocking, keys - (left - {k})) == if l == [] then b - {k} else b[k := l]
  {
    hide RemoveNode;
    assert (keys - left).Keys == keys.Keys - left;
  }

  lemma TakeUnblockedKeepsValid(x: Index)
    requires Valid(x) && x.unblockedList != []
    ensures
      var c := x.unblockedList[0];
      c in x.clients && Valid(x.(unblockedList := x.unblockedList[1..],
        clients := x.clients[c := x.clients[c].(unblocked := false)]))
  {
    hide CountsOk, WaitOk;
    var c := x.unblockedList[0];
    var s := x.clients[c].(unblocked := false);
    var y := x.(clients := x.clients[c := s], blockedCount := x.blockedCount, byType := x.byType);
    var z := x.(unblockedList := x.unblockedList[1..], clients := x.clients[c := s]);
    CountsUpdate(x, c, s, x.blockedCount, x.byType);
    FrameCounts(y, z);
    FlagKeepsWaiting(x, c, false, x.unblockedList[1..]);
    assert FlagsOk(x.clients[c]);
  }

  lemma FlagKeepsWaiting(x: Index, c: ClientId, flag: bool, l: seq<ClientId>)
    requires WaitOk(x) && c in x.clients
    ensures WaitOk(x.(unblockedList := l, clients := x.clients[c := x.clients[c].(unblocked := flag)]))
  {
    var y := x.(unblockedList := l, clients := x.clients[c := x.clients[c].(unblocked := flag)]);
    forall d <- y.clients ensures ClientOk(y, d) { assert ClientOk(x, d); }
    forall q <- y.blocking ensures KeyOk(y, q) { assert KeyOk(x, q); }
  }

  /** A client that blocks only on keys that cannot serve it starves nobody. */
  lemma BlockingKeepsFair(x: Index, y: Index, c: ClientId, aim: Aim, keys: seq<Key>, ids: seq<nat>, db: map<Key, Value>)
    requires WaitOk(x) && c in x.clients && x.clients[c].keys == map[] && |ids| == |keys|
    requires BlockedFor(x, y, c, aim, keys, ids) && Fair(x, db, {})
    requires forall k <- keys :: k in db ==> !CanServe(y, k, Entry(y.clients[c].keys[k].node, c), db[k])
    ensures Fair(y, db, {})
  {
    hide WaitOk, FirstIds;
    forall q <- db | Starved(y, q, db[q])
      ensures Starved(x, q, db[q])
    {
      var e :| e in Waiting(y, q) && CanServe(y, q, e, db[q]);
      assert Waiting(y, q) == Waiting(x, q) + if q in keys then [Entry(y.clients[c].keys[q].node, c)] else [];
      assert e in Waiting(x, q);
      NotWaitingYet(x, c, q, e);
      assert CanServe(x, q, e, db[q]);
    }
  }

  lemma NotWaitingYet(x: Index, c: ClientId, k: Key, e: Entry)
    requires WaitOk(x) && c in x.clients && x.clients[c].keys == map[] && e in Waiting(x, k)
    ensures e.client != c && e.client in x.clients
  {
    assert KeyOk(x, k);
  }
}
