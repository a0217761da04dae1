/** What serving one client of a list or a sorted set key keeps, and taking keys off the ready keys. */
module BlockedSteps {
  import opened Prelude
  import opened BlockedIndex
  import opened BlockedKeyspace
  import opened BlockedServing
  import opened BlockedFairness
  import opened BlockedWaits

  lemma UnblockKeepsReady(x: Index, pending: seq<Key>, c: ClientId)
    requires ReadyOk(x, pending) && c in x.clients && x.clients[c].btype in x.byType
    ensures ReadyOk(Unblock(x, c), pending) && Unblock(x, c).ready == x.ready
  {
  }

  lemma UnblockKeepsRest(x: Index, db: map<Key, Value>, pending: seq<Key>, k: Key, c: ClientId)
    requires Valid(x) && ReadyOk(x, pending) && c in x.clients && x.clients[c].blocked
    ensures
      && x.clients[c].btype in x.byType && Valid(Unblock(x, c)) && ReadyOk(Unblock(x, c), pending)
      && Unblock(x, c).blockedCount == x.blockedCount - 1 && Unblock(x, c).ready == x.ready
      && (Fair(x, db, {k}) ==> Fair(Unblock(x, c), db, {k}))
  {
    hide Fair, Valid, ReadyOk, Unblock;
    UnblockKeepsValid(x, c);
    UnblockKeepsReady(x, pending, c);
    if Fair(x, db, {k}) {
      UnblockKeepsFair(x, db, {k}, c);
    }
  }

  lemma RotateKeepsAll(x: Index, db: map<Key, Value>, pending: seq<Key>, k: Key)
    requires Valid(x) && ReadyOk(x, pending) && k in x.blocking && x.blocking[k] != []
    ensures Valid(Rotate(x, k)) && ReadyOk(Rotate(x, k), pending)
    ensures Fair(x, db, {k}) ==> Fair(Rotate(x, k), db, {k})
  {
    hide Fair, Valid;
    RotateKeepsValid(x, k);
    if Fair(x, db, {k}) {
      RotateKeepsFair(x, db, {k}, k);
    }
  }

  lemma NeverBlocksSelf(x: Index)
    ensures NeverBlocks(x, x)
  {
    assert forall c <- x.clients :: SameWait(x.clients[c], x.clients[c]);
  }

  lemma CountIsNat(x: Index)
    requires Valid(x)
    ensures x.blockedCount >= 0
  {
  }

  /** LPUSH of one item; a missing key becomes a list. */
  function PushTo(db: map<Key, Value>, d: Key, v: Item): map<Key, Value>
    requires d in db ==> db[d].ListVal?
  {
    db[d := ListVal(Push(if d in db then db[d].items else [], v, Head))]
  }

  lemma PushToTotal(db: map<Key, Value>, replies: seq<Reply>, d: Key, v: Item, c: ClientId)
    requires d in db ==> db[d].ListVal?
    ensures Total(PushTo(db, d, v), replies + [Moved(c, d, v)]) == Total(db, replies) + multiset{v}
  {
    DeliveredNext(replies, Moved(c, d, v));
    hide Items, Delivered;
    ItemsSet(db, d, ListVal(Push(if d in db then db[d].items else [], v, Head)));
    if d in db {
      assert multiset([v] + db[d].items) == multiset{v} + multiset(db[d].items);
      Cancel(Items(PushTo(db, d, v)), Items(db) + multiset{v}, multiset(db[d].items));
    }
  }

  /** Taking an item out of a list, and putting it back. */
  lemma PopTotal(db: map<Key, Value>, replies: seq<Reply>, k: Key, where: Where)
    requires k in db && db[k].ListVal? && db[k].items != []
    ensures Total(db, replies)
      == Total(db[k := ListVal(Pop(db[k].items, where).1)], replies) + multiset{Pop(db[k].items, where).0}
  {
    hide Items, Delivered;
    PopPush(db[k].items, where);
    ItemsSet(db, k, ListVal(Pop(db[k].items, where).1));
    var (v, rest) := Pop(db[k].items, where);
    Cancel(Items(db), Items(db[k := ListVal(rest)]) + multiset{v}, multiset(rest));
  }

  lemma Cancel(a: multiset<Item>, b: multiset<Item>, c: multiset<Item>)
    requires a + c == b + c
    ensures a == b
  {
    forall v: Item
      ensures a[v] == b[v]
    {
      assert (a + c)[v] == a[v] + c[v];
    }
  }

  lemma SameTotal(db: map<Key, Value>, replies: seq<Reply>, replies': seq<Reply>)
    requires Delivered(replies') == Delivered(replies)
    ensures Total(db, replies') == Total(db, replies)
  {
  }

  lemma NothingToServe(x: Index, db: map<Key, Value>, k: Key)
    requires k in db ==> db[k].OtherVal? || (db[k].ZSetVal? && db[k].members == 0)
    ensures Fair(x, db, {k}) && (k in db ==> Held(db[k])) ==> Fair(x, db, {})
  {
    if Fair(x, db, {k}) && (k in db ==> Held(db[k])) {
      DoneServing(x, db, k);
    }
  }

  /** server.ready_keys is replaced by an empty list while the old one is served. */
  lemma TakeReady(x: Index, db: map<Key, Value>)
    requires Valid(x) && ReadyOk(x, [])
    ensures
      var y := x.(ready := []);
      && Valid(y) && ReadyOk(y, x.ready) && (Fair(x, db, {}) ==> Fair(y, db, {}))
      && forall x0 :: NeverBlocks(x0, x) ==> NeverBlocks(x0, y)
  {
    hide Valid, Fair;
    var y := x.(ready := []);
    assert x.ready + y.ready == [] + x.ready;
    ReadyKeepsValid(x, y);
    ReadyKeepsFair(x, y, db);
  }

  lemma ReadyKeepsValid(x: Index, y: Index)
    requires Valid(x) && y == x.(ready := y.ready, readySet := y.readySet)
    ensures Valid(y)
  {
    forall d <- y.clients ensures ClientOk(y, d) { assert ClientOk(x, d); }
    forall q <- y.blocking ensures KeyOk(y, q) { assert KeyOk(x, q); }
  }

  lemma ReadyKeepsFair(x: Index, y: Index, db: map<Key, Value>)
    requires y == x.(ready := y.ready)
    ensures Fair(x, db, {}) ==> Fair(y, db, {})
  {
    if Fair(x, db, {}) {
      forall q <- db | Starved(y, q, db[q])
        ensures Starved(x, q, db[q])
      {
        var e :| e in Waiting(y, q) && CanServe(y, q, e, db[q]);
        assert e in Waiting(x, q) && CanServe(x, q, e, db[q]);
      }
    }
  }

  /** The key being served may be signalled again. */
  lemma TakeKey(x: Index, db: map<Key, Value>, l: seq<Key>)
    requires Valid(x) && ReadyOk(x, l) && l != []
    ensures
      var y := x.(readySet := x.readySet - {l[0]});
      && Valid(y) && ReadyOk(y, l[1..]) && NeverBlocks(x, y)
      && (Fair(x, db, {}) ==> Fair(y, db, {l[0]}) && (l[0] in db ==> Held(db[l[0]])))
  {
    var y := x.(readySet := x.readySet - {l[0]});
    ReadyKeepsValid(x, y);
    TakeKeyReady(x, l);
    NeverBlocksSelf(x);
    if Fair(x, db, {}) {
      StartServing(x, db, l[0]);
    }
  }

  lemma TakeKeyReady(x: Index, l: seq<Key>)
    requires ReadyOk(x, l) && l != []
    ensures ReadyOk(x.(readySet := x.readySet - {l[0]}), l[1..])
  {
    var y := x.(readySet := x.readySet - {l[0]});
    var s := l + x.ready;
    assert l[1..] + y.ready == s[1..];
    forall k
      ensures k in y.readySet <==> k in s[1..]
    {
      assert k in x.readySet <==> k in s;
      if k in s[1..] {
        var j :| 1 <= j < |s| && s[j] == k;
        assert s[0] != s[j];
      }
    }
  }

  lemma Quiet(x: Index, db: map<Key, Value>)
    requires ReadyOk(x, []) && x.ready == []
    ensures x.readySet == {}
    ensures Fair(x, db, {}) ==> forall k <- db :: Held(db[k]) && !Starved(x, k, db[k])
  {
    hide Held, Starved;
    assert forall k :: k !in [] + x.ready;
  }

  /** The keyspace when so many members are left; an empty sorted set is deleted. */
  function Remaining(db: map<Key, Value>, k: Key, members: nat): map<Key, Value> {
    if members == 0 then db - {k} else db[k := ZSetVal(members)]
  }

  lemma RemainingIs(db: map<Key, Value>, k: Key, members: nat)
    ensures
      var r := Remaining(db, k, members);
      r - {k} == db - {k} && (k in r <==> members > 0) && (members > 0 ==> r[k] == ZSetVal(members))
  {
  }

  lemma RemainingAll(db: map<Key, Value>, k: Key)
    requires k in db && db[k].ZSetVal? && db[k].members > 0
    ensures Remaining(db, k, db[k].members) == db
  {
  }

  lemma RemainingNext(db: map<Key, Value>, k: Key, members: nat)
    requires k in db && members > 0
    ensures
      var r := Remaining(db, k, members);
      && k in r && r[k] == ZSetVal(members)
      && (if members == 1 then r - {k} else r[k := ZSetVal(members - 1)]) == Remaining(db, k, members - 1)
  {
  }

  /** Members leave the sorted set only; no list changes, and nobody is left starved. */
  lemma ZSetDone(x0: Index, x: Index, db: map<Key, Value>, replies: seq<Reply>, replies': seq<Reply>, k: Key, i: nat,
      zcard: nat)
    requires Delivered(replies') == Delivered(replies)
    requires Valid(x0) && k in db && db[k].ZSetVal? && ServedUpTo(x0, x, k, BZSet, i)
    requires i == |Waiting(x0, k)| || zcard == 0
    ensures
      var db' := Remaining(db, k, zcard);
      (zcard == 0 ==> k !in db') && Total(db', replies') == Total(db, replies)
        && (Fair(x, db, {k}) ==> Fair(x, db', {}))
  {
    hide Fair, Items, ServedUpTo, WaitOk, CountsOk, UnblockedOk, Starved, Delivered;
    ItemsWithout(db, k);
    ItemsSet(db, k, ZSetVal(zcard));
    Cancel(Items(db[k := ZSetVal(zcard)]), Items(db), multiset{});
    if Fair(x, db, {k}) {
      if zcard == 0 {
        RemovedKeepsFair(x, db, k);
      } else {
        SetServedKeepsFair(x, db, {k}, k, ZSetVal(zcard));
        AllServed(x0, x, k, BZSet, ZSetVal(zcard));
        DoneServing(x, db[k := ZSetVal(zcard)], k);
      }
    }
  }

  lemma ServedBound(x0: Index, x: Index, k: Key, t: BType, i: nat)
    requires ServedUpTo(x0, x, k, t, i)
    ensures i <= |Waiting(x0, k)| && Chosen(x0, [], t) == []
  {
  }

  /** Deleting the key if it is empty conserves the items and leaves nobody starved. */
  lemma ListDone(x0: Index, x: Index, db: map<Key, Value>, replies: seq<Reply>, k: Key, i: nat)
    requires Valid(x0) && k in db && db[k].ListVal? && ServedUpTo(x0, x, k, BList, i)
    ensures db[k].items == [] ==> Total(db - {k}, replies) == Total(db, replies)
    ensures db[k].items == [] && Fair(x, db, {k}) ==> Fair(x, db - {k}, {})
    ensures db[k].items != [] && i == |Waiting(x0, k)| && Fair(x, db, {k}) ==> Fair(x, db, {})
  {
    hide Fair, Items, Delivered, ServedUpTo, WaitOk, CountsOk, UnblockedOk, Starved;
    if db[k].items == [] {
      ItemsWithout(db, k);
      if Fair(x, db, {k}) {
        RemovedKeepsFair(x, db, k);
      }
    } else if i == |Waiting(x0, k)| && Fair(x, db, {k}) {
      AllServed(x0, x, k, BList, db[k]);
      DoneServing(x, db, k);
    }
  }

  /** Popping from the served key and unblocking the client. */
  lemma UnblockKeepsAll(x: Index, db: map<Key, Value>, pending: seq<Key>, k: Key, rest: seq<Item>, c: ClientId)
    requires Valid(x) && ReadyOk(x, pending) && c in x.clients && x.clients[c].blocked
    ensures
      && x.clients[c].btype in x.byType && Valid(Unblock(x, c)) && ReadyOk(Unblock(x, c), pending)
      && Unblock(x, c).blockedCount == x.blockedCount - 1
      && (Fair(x, db, {k}) ==> Fair(Unblock(x, c), db[k := ListVal(rest)], {k}))
  {
    hide Fair, Valid, ReadyOk, Unblock;
    UnblockKeepsValid(x, c);
    UnblockKeepsReady(x, pending, c);
    if Fair(x, db, {k}) {
      UnblockKeepsFair(x, db, {k}, c);
      SetServedKeepsFair(Unblock(x, c), db, {k}, k, ListVal(rest));
    }
  }

  /** What serving leaves, given the state x the client was unblocked in and the keyspace db before its item was
      popped. */
  lemma ServedOne(x: Index, db: map<Key, Value>, pending: seq<Key>, k: Key, where: Where, replies: seq<Reply>,
      c: ClientId, dst: Option<Key>)
    requires Valid(x) && ReadyOk(x, pending) && k in db && db[k].ListVal? && db[k].items != []
    ensures
      var (v, rest) := Pop(db[k].items, where);
      var db1 := db[k := ListVal(rest)];
      if dst.None? then
        && Total(db1, replies + [Popped(c, k, v)]) == Total(db, replies)
        && Receivers(replies + [Popped(c, k, v)]) == Receivers(replies) + [c]
      else if dst.value in db1 && !db1[dst.value].ListVal? then
        && db1[k := ListVal(Push(rest, v, where))] == db
        && Total(db, replies + [WrongType(c)]) == Total(db, replies)
        && Receivers(replies + [WrongType(c)]) == Receivers(replies) + [c]
        && (Fair(x, db1, {k}) ==> Fair(x, db, {k}))
      else
        && Total(PushTo(db1, dst.value, v), replies + [Moved(c, dst.value, v)]) == Total(db, replies)
        && Receivers(replies + [Moved(c, dst.value, v)]) == Receivers(replies) + [c]
        && (Fair(x, db1, {k}) ==>
          Fair(if dst.value in db1 then x else Signal(x, dst.value), PushTo(db1, dst.value, v), {k}))
        && Valid(Signal(x, dst.value)) && ReadyOk(Signal(x, dst.value), pending)
  {
    hide Valid, ReadyOk, Fair, Items, Delivered, Receivers;
    var (v, rest) := Pop(db[k].items, where);
    var db1 := db[k := ListVal(rest)];
    PopTotal(db, replies, k, where);
    PopPush(db[k].items, where);
    if dst.None? {
      DeliveredNext(replies, Popped(c, k, v));
    } else if dst.value in db1 && !db1[dst.value].ListVal? {
      DeliveredNext(replies, WrongType(c));
      assert db1[k := ListVal(Push(rest, v, where))] == db;
      if Fair(x, db1, {k}) {
        SetServedKeepsFair(x, db1, {k}, k, ListVal(Push(rest, v, where)));
      }
    } else {
      DeliveredNext(replies, Moved(c, dst.value, v));
      PushToTotal(db1, replies, dst.value, v, c);
      SignalKeepsValid(x, dst.value);
      SignalKeepsReady(x, pending, dst.value);
      if Fair(x, db1, {k}) {
        PushKeepsFair(x, db1, {k}, dst.value, Push(if dst.value in db1 then db1[dst.value].items else [], v, Head));
      }
    }
  }
}
