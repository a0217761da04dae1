/** Which items the clients of a list key get, in whole sequences of turns. */
module BlockedTurns {
  import opened Prelude
  import opened BlockedIndex
  import opened BlockedKeyspace

  /** The keyspace and the replies sent so far. */
  datatype Served = Served(db: map<Key, Value>, replies: seq<Reply>)

  /** The client is unblocked, and a target that was missing becomes ready. */
  function UnblockFor(x: Index, db: map<Key, Value>, c: ClientId): Index
    requires c in x.clients && x.clients[c].btype in x.byType
  {
    var target := x.clients[c].target;
    if target.Some? && target.value !in db then Signal(Unblock(x, c), target.value) else Unblock(x, c)
  }

  predicate HasItems(db: map<Key, Value>, k: Key) {
    k in db && db[k].ListVal? && db[k].items != []
  }

  /** A client takes the first item or the last, and keeps it, or has it put in front of another list; a target that is
      no list leaves everything as it was. */
  function Turn(st: Served, k: Key, c: ClientId, where: Where, target: Option<Key>): Served
    requires HasItems(st.db, k)
  {
    var items := st.db[k].items;
    var last := |items| - 1;
    var v := if where == Head then items[0] else items[last];
    var db := st.db[k := ListVal(if where == Head then items[1..] else items[..last])];
    if target.None? then Served(db, st.replies + [Popped(c, k, v)])
    else if target.value in db && !db[target.value].ListVal? then Served(st.db, st.replies + [WrongType(c)])
    else
      var there := if target.value in db then db[target.value].items else [];
      Served(db[target.value := ListVal([v] + there)], st.replies + [Moved(c, target.value, v)])
  }

  /** The turns of several clients, while there are items. */
  function Turns(st: Served, k: Key, x: Index, clients: seq<ClientId>): Served {
    if clients == [] then st
    else
      var c := clients[|clients| - 1];
      var before := Turns(st, k, x, clients[..|clients| - 1]);
      if c in x.clients && HasItems(before.db, k)
      then Turn(before, k, c, x.clients[c].where, x.clients[c].target)
      else before
  }

  lemma TurnsNone(st: Served, k: Key, x: Index)
    ensures Turns(st, k, x, []) == st
  {
  }

  lemma TurnsNext(st: Served, k: Key, x: Index, clients: seq<ClientId>, c: ClientId)
    requires c in x.clients && HasItems(Turns(st, k, x, clients).db, k)
    ensures Turns(st, k, x, clients + [c]) ==
            Turn(Turns(st, k, x, clients), k, c, x.clients[c].where, x.clients[c].target)
  {
    hide Turn;
    assert (clients + [c])[..|clients|] == clients;
  }

  /** All clients take from this end, and have this target. */
  predicate Alike(x: Index, clients: seq<ClientId>, where: Where, target: Option<Key>) {
    forall c <- clients :: c in x.clients && x.clients[c].where == where && x.clients[c].target == target
  }

  lemma AlikePrefix(x: Index, clients: seq<ClientId>, where: Where, target: Option<Key>)
    requires clients != [] && Alike(x, clients, where, target)
    ensures
      var n := |clients| - 1;
      && Alike(x, clients[..n], where, target) && clients[..n] + [clients[n]] == clients
      && clients[n] in x.clients && x.clients[clients[n]].where == where && x.clients[clients[n]].target == target
  {
    var n := |clients| - 1;
    assert clients[n] in clients && forall c <- clients[..n] :: c in clients;
  }

  /** So many replies were added. */
  ghost predicate Answers(before: seq<Reply>, after: seq<Reply>, n: nat) {
    before <= after && |after| == |before| + n
  }

  /** BLPOP: so many clients get the first items, in order, and the rest stays. */
  lemma {:induction false} BlpopTakesFirst(st: Served, k: Key, x: Index, clients: seq<ClientId>)
    requires k in st.db && st.db[k].ListVal? && |clients| <= |st.db[k].items| && Alike(x, clients, Head, None)
    ensures
      var items, j, r := st.db[k].items, |clients|, Turns(st, k, x, clients);
      && r.db == st.db[k := ListVal(items[j..])] && Answers(st.replies, r.replies, j)
      && forall i :: 0 <= i < j ==> r.replies[|st.replies| + i] == Popped(clients[i], k, items[i])
    decreases |clients|
  {
    var items, j := st.db[k].items, |clients|;
    if clients == [] {
      assert items[0..] == items;
    } else {
      var n := j - 1;
      AlikePrefix(x, clients, Head, None);
      BlpopTakesFirst(st, k, x, clients[..n]);
      TurnsNext(st, k, x, clients[..n], clients[n]);
      hide Turns, Alike;
      assert items[n..][1..] == items[j..];
    }
  }

  /** BRPOP: so many clients get the last items, the last first, and the rest stays. */
  lemma {:induction false} BrpopTakesLast(st: Served, k: Key, x: Index, clients: seq<ClientId>)
    requires k in st.db && st.db[k].ListVal? && |clients| <= |st.db[k].items| && Alike(x, clients, Tail, None)
    ensures
      var items, j, r := st.db[k].items, |clients|, Turns(st, k, x, clients);
      && r.db == st.db[k := ListVal(items[..|items| - j])] && Answers(st.replies, r.replies, j)
      && forall i :: 0 <= i < j ==> r.replies[|st.replies| + i] == Popped(clients[i], k, items[|items| - 1 - i])
    decreases |clients|
  {
    var items, j := st.db[k].items, |clients|;
    if clients == [] {
      assert items[..|items|] == items;
    } else {
      var n, m := j - 1, |items|;
      AlikePrefix(x, clients, Tail, None);
      BrpopTakesLast(st, k, x, clients[..n]);
      TurnsNext(st, k, x, clients[..n], clients[n]);
      hide Turns, Alike;
      assert items[..m - n][..m - j] == items[..m - j];
    }
  }

  /** What a list of a keyspace holds. */
  function ListAt(db: map<Key, Value>, k: Key): seq<Item> {
    if k in db && db[k].ListVal? then db[k].items else []
  }

  lemma MoveLast(st: Served, k: Key, c: ClientId, d: Key)
    requires HasItems(st.db, k) && d != k && (d in st.db ==> st.db[d].ListVal?)
    ensures
      var items, r := st.db[k].items, Turn(st, k, c, Tail, Some(d));
      var last := |items| - 1;
      && k in r.db && r.db[k].ListVal? && ListAt(r.db, k) == items[..last]
      && d in r.db && r.db[d].ListVal? && ListAt(r.db, d) == [items[last]] + ListAt(st.db, d)
      && r.db - {k, d} == st.db - {k, d} && r.replies == st.replies + [Moved(c, d, items[last])]
  {
  }

  /** The last j items of k moved, in their order, to the front of d. */
  ghost predicate MovedOver(st: Served, r: Served, k: Key, d: Key, j: nat)
    requires j <= |ListAt(st.db, k)|
  {
    var items := ListAt(st.db, k);
    var left := |items| - j;
    && k in r.db && r.db[k].ListVal? && ListAt(r.db, k) == items[..left]
    && (d in r.db ==> r.db[d].ListVal?) && ListAt(r.db, d) == items[left..] + ListAt(st.db, d)
    && r.db - {k, d} == st.db - {k, d}
  }

  lemma MovedOneMore(st: Served, r: Served, k: Key, c: ClientId, d: Key, n: nat)
    requires d != k && n < |ListAt(st.db, k)| && MovedOver(st, r, k, d, n)
    ensures
      var items := ListAt(st.db, k);
      && HasItems(r.db, k) && MovedOver(st, Turn(r, k, c, Tail, Some(d)), k, d, n + 1)
      && Turn(r, k, c, Tail, Some(d)).replies == r.replies + [Moved(c, d, items[|items| - 1 - n])]
  {
    var items := ListAt(st.db, k);
    var left := |items| - n;
    MoveLast(r, k, c, d);
    hide Turn;
    assert items[..left][..left - 1] == items[..left - 1];
    assert [items[left - 1]] + (items[left..] + ListAt(st.db, d)) == items[left - 1..] + ListAt(st.db, d);
  }

  /** BRPOPLPUSH to another list: the last items move over together, in their order, to its front. */
  lemma {:induction false} BrpoplpushMovesLast(st: Served, k: Key, x: Index, clients: seq<ClientId>, d: Key)
    requires k in st.db && st.db[k].ListVal? && |clients| <= |st.db[k].items| && Alike(x, clients, Tail, Some(d))
    requires d != k && (d in st.db ==> st.db[d].ListVal?)
    ensures
      var items, j, r := st.db[k].items, |clients|, Turns(st, k, x, clients);
      && MovedOver(st, r, k, d, j) && Answers(st.replies, r.replies, j)
      && forall i :: 0 <= i < j ==> r.replies[|st.replies| + i] == Moved(clients[i], d, items[|items| - 1 - i])
    decreases |clients|
  {
    if clients == [] {
      var items := st.db[k].items;
      assert items[..|items|] == items && items[|items|..] + ListAt(st.db, d) == ListAt(st.db, d);
    } else {
      var n := |clients| - 1;
      AlikePrefix(x, clients, Tail, Some(d));
      hide Turn, Turns, Alike, MovedOver;
      BrpoplpushMovesLast(st, k, x, clients[..n], d);
      MovedOneMore(st, Turns(st, k, x, clients[..n]), k, clients[n], d, n);
      TurnsNext(st, k, x, clients[..n], clients[n]);
    }
  }
}
