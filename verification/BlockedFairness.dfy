/** No client is left waiting for a key that could serve it, unless the key is queued as ready. */
module BlockedFairness {
  import opened Prelude
  import opened BlockedIndex
  import opened BlockedKeyspace
  import opened BlockedServing

  /** The value would serve this entry's client. */
  predicate CanServe(x: Index, k: Key, e: Entry, v: Value) {
    e.client in x.clients &&
    var s := x.clients[e.client];
    match v
    case ListVal(items) => s.btype == BList && items != []
    case ZSetVal(members) => s.btype == BZSet && members > 0
    case StreamVal(lastId) => s.btype == BStream && !s.inGroup && k in s.keys && lastId > s.keys[k].streamId
    case OtherVal => false
  }

  ghost predicate Starved(x: Index, k: Key, v: Value) {
    exists e <- Waiting(x, k) :: CanServe(x, k, e, v)
  }

  /** Empty lists and sorted sets are never stored. */
  predicate Held(v: Value) {
    (v.ListVal? ==> v.items != []) && (v.ZSetVal? ==> v.members > 0)
  }

  /** Outside the keys being served, whoever could be served waits for a ready key. */
  ghost predicate Fair(x: Index, db: map<Key, Value>, serving: set<Key>) {
    forall q <- db :: q !in serving ==> Held(db[q]) && (Starved(x, q, db[q]) ==> q in x.readySet)
  }

  lemma UnblockStarvesNobody(x: Index, c: ClientId, q: Key, v: Value)
    requires c in x.clients && x.clients[c].btype in x.byType
    requires Starved(Unblock(x, c), q, v)
    ensures Starved(x, q, v)
  {
    var y := Unblock(x, c);
    var e :| e in Waiting(y, q) && CanServe(y, q, e, v);
    assert e in Waiting(x, q) && CanServe(x, q, e, v);
  }

  lemma UnblockKeepsFair(x: Index, db: map<Key, Value>, serving: set<Key>, c: ClientId)
    requires Fair(x, db, serving) && c in x.clients && x.clients[c].btype in x.byType
    ensures Fair(Unblock(x, c), db, serving)
  {
    hide Held, Starved;
    assert Unblock(x, c).readySet == x.readySet;
    hide Unblock;
    forall q <- db | q !in serving && Starved(Unblock(x, c), q, db[q])
      ensures Starved(x, q, db[q])
    {
      UnblockStarvesNobody(x, c, q, db[q]);
    }
  }

  lemma RotateKeepsFair(x: Index, db: map<Key, Value>, serving: set<Key>, k: Key)
    requires Fair(x, db, serving) && k in serving && k in x.blocking && x.blocking[k] != []
    ensures Fair(Rotate(x, k), db, serving)
  {
    var y := Rotate(x, k);
    forall q <- db | q !in serving && Starved(y, q, db[q])
      ensures Starved(x, q, db[q])
    {
      assert Waiting(y, q) == Waiting(x, q);
      var e :| e in Waiting(y, q) && CanServe(y, q, e, db[q]);
      assert CanServe(x, q, e, db[q]);
    }
  }

  /** Pushing to another list: one that exists has its waiters queued already, a new one is signalled. */
  lemma PushKeepsFair(x: Index, db: map<Key, Value>, serving: set<Key>, d: Key, items: seq<Item>)
    requires Fair(x, db, serving) && items != []
    requires d in db ==> db[d].ListVal?
    ensures Fair(if d in db then x else Signal(x, d), db[d := ListVal(items)], serving)
  {
    var y := if d in db then x else Signal(x, d);
    forall q <- db[d := ListVal(items)] | q !in serving && Starved(y, q, db[d := ListVal(items)][q])
      ensures q in y.readySet
    {
      var v := db[d := ListVal(items)][q];
      var e :| e in Waiting(y, q) && CanServe(y, q, e, v);
      assert e in Waiting(x, q) && CanServe(x, q, e, v);
      if q in db {
        assert CanServe(x, q, e, db[q]);
        assert Starved(x, q, db[q]);
      } else {
        assert q == d && q in x.blocking;
      }
    }
  }

  lemma SetServedKeepsFair(x: Index, db: map<Key, Value>, serving: set<Key>, k: Key, v: Value)
    requires Fair(x, db, serving) && k in serving
    ensures Fair(x, db[k := v], serving)
  {
    hide Held, Starved;
  }

  /** A key may be taken off the ready keys while it is being served, */
  lemma StartServing(x: Index, db: map<Key, Value>, k: Key)
    requires Fair(x, db, {})
    ensures Fair(x.(readySet := x.readySet - {k}), db, {k})
  {
    var y := x.(readySet := x.readySet - {k});
    forall q <- db | q != k && Starved(y, q, db[q])
      ensures Starved(x, q, db[q])
    {
      var e :| e in Waiting(y, q) && CanServe(y, q, e, db[q]);
      assert e in Waiting(x, q) && CanServe(x, q, e, db[q]);
    }
  }

  /** and is done once it is gone or nobody it could serve still waits. */
  lemma DoneServing(x: Index, db: map<Key, Value>, k: Key)
    requires Fair(x, db, {k}) && (k in db ==> Held(db[k]) && !Starved(x, k, db[k]))
    ensures Fair(x, db, {})
  {
    hide Held, Starved;
  }

  lemma RemovedKeepsFair(x: Index, db: map<Key, Value>, k: Key)
    requires Fair(x, db, {k})
    ensures Fair(x, db - {k}, {})
  {
    hide Held, Starved;
  }

  lemma {:induction false} OthersAreOther(x: Index, l: seq<Entry>, t: BType, e: Entry)
    requires e in Others(x, l, t)
    ensures e in l && !IsType(x, e, t)
    decreases |l|
  {
    if e in Others(x, l[..|l| - 1], t) {
      OthersAreOther(x, l[..|l| - 1], t, e);
    }
  }

  /** When every waiting client was looked at, none of the wanted type is left. */
  lemma AllServed(x0: Index, x: Index, k: Key, t: BType, v: Value)
    requires ServedUpTo(x0, x, k, t, |Waiting(x0, k)|)
    requires v == OtherVal || (v.ListVal? && t == BList) || (v.ZSetVal? && t == BZSet)
    requires WaitOk(x0)
    ensures !Starved(x, k, v)
  {
    hide WaitOk;
    var l := Waiting(x0, k);
    forall e <- Waiting(x, k)
      ensures !CanServe(x, k, e, v)
    {
      assert l[..|l|] == l && l[|l|..] == [];
      OthersAreOther(x0, l, t, e);
      WaiterKnown(x0, k, e);
    }
  }

  lemma WaiterKnown(x: Index, k: Key, e: Entry)
    requires WaitOk(x) && e in Waiting(x, k)
    ensures e.client in x.clients
  {
    assert KeyOk(x, k);
  }
}
