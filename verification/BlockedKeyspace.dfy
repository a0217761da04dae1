/** The keys clients block on, what they hold, and what the clients are answered. */
module BlockedKeyspace {
  import opened Prelude
  import opened BlockedIndex

  type Item = nat

  datatype Value =
    | ListVal(items: seq<Item>)
    | ZSetVal(members: nat)
    | StreamVal(lastId: nat)
    | OtherVal

  // ---------------------------------------------------------------------------
  // Conservation of list items
  // ---------------------------------------------------------------------------

  function ItemsOf(v: Value): multiset<Item> {
    if v.ListVal? then multiset(v.items) else multiset{}
  }

  /** All items of all lists of the keyspace. */
  ghost function Items(db: map<Key, Value>): multiset<Item>
    decreases |db|
  {
    if db == map[] then multiset{}
    else
      var k :| k in db;
      SmallerMap(db, k);
      ItemsOf(db[k]) + Items(db - {k})
  }

  lemma SmallerMap(db: map<Key, Value>, k: Key)
    requires k in db
    ensures |db - {k}| < |db|
  {
    assert (db - {k}).Keys == db.Keys - {k};
    assert |db.Keys| == |db| && |(db - {k}).Keys| == |db - {k}|;
  }

  lemma ItemsUnfold(db: map<Key, Value>) returns (k: Key)
    requires db != map[]
    ensures k in db && Items(db) == ItemsOf(db[k]) + Items(db - {k})
  {
    hide ItemsOf;
    k :| k in db && Items(db) == ItemsOf(db[k]) + Items(db - {k});
  }

  lemma {:induction false} ItemsWithout(db: map<Key, Value>, k: Key)
    requires k in db
    ensures Items(db) == ItemsOf(db[k]) + Items(db - {k})
    decreases |db|
  {
    hide Items, ItemsOf;
    var p := ItemsUnfold(db);
    if p != k {
      SmallerMap(db, p);
      SmallerMap(db, k);
      ItemsWithout(db - {p}, k);
      ItemsWithout(db - {k}, p);
      assert db - {p} - {k} == db - {k} - {p};
    }
  }

  lemma ItemsSet(db: map<Key, Value>, k: Key, v: Value)
    ensures k in db ==> Items(db[k := v]) + ItemsOf(db[k]) == Items(db) + ItemsOf(v)
    ensures k !in db ==> Items(db[k := v]) == Items(db) + ItemsOf(v)
  {
    hide Items, ItemsOf;
    ItemsWithout(db[k := v], k);
    if k in db {
      ItemsWithout(db, k);
      assert db[k := v] - {k} == db - {k};
    } else {
      assert db[k := v] - {k} == db;
    }
  }

  /** listTypePop */
  function Pop(items: seq<Item>, where: Where): (Item, seq<Item>)
    requires items != []
  {
    if where == Head then (items[0], items[1..]) else (items[|items| - 1], items[..|items| - 1])
  }

  /** listTypePush */
  function Push(items: seq<Item>, v: Item, where: Where): seq<Item> {
    if where == Head then [v] + items else items + [v]
  }

  lemma PopPush(items: seq<Item>, where: Where)
    requires items != []
    ensures Push(Pop(items, where).1, Pop(items, where).0, where) == items
    ensures multiset(items) == multiset(Pop(items, where).1) + multiset{Pop(items, where).0}
  {
    var (v, rest) := Pop(items, where);
    if where == Head {
      assert items == [v] + rest;
    } else {
      assert items == rest + [v];
    }
  }

  // ---------------------------------------------------------------------------
  // Replies
  // ---------------------------------------------------------------------------

  datatype Reply =
    | Popped(client: ClientId, key: Key, item: Item)       // BLPOP, BRPOP
    | Moved(client: ClientId, key: Key, item: Item)        // BRPOPLPUSH
    | WrongType(client: ClientId)                          // the destination holds something else
    | ZPopped(client: ClientId, key: Key)                  // BZPOPMIN, BZPOPMAX
    | Entries(client: ClientId, key: Key)                  // XREAD, XREADGROUP
    | NoGroup(client: ClientId)

  /** The items that left the keyspace in replies. */
  function Delivered(replies: seq<Reply>): multiset<Item> {
    if replies == [] then multiset{}
    else
      var last := replies[|replies| - 1];
      Delivered(replies[..|replies| - 1]) + (if last.Popped? then multiset{last.item} else multiset{})
  }

  /** Who was answered, in order. */
  function Receivers(replies: seq<Reply>): seq<ClientId> {
    if replies == [] then [] else Receivers(replies[..|replies| - 1]) + [replies[|replies| - 1].client]
  }

  lemma DeliveredNext(replies: seq<Reply>, r: Reply)
    ensures Delivered(replies + [r]) == Delivered(replies) + (if r.Popped? then multiset{r.item} else multiset{})
    ensures Receivers(replies + [r]) == Receivers(replies) + [r.client]
  {
    assert (replies + [r])[..|replies|] == replies;
  }

  /** Items in lists and items handed out. */
  ghost function Total(db: map<Key, Value>, replies: seq<Reply>): multiset<Item> {
    Items(db) + Delivered(replies)
  }
}
