/**
 Blocking clients on keys and serving them when keys become ready.

 Serving a client can create new work: BRPOPLPUSH pushes what it pops, which may make another key ready.
 */
module BlockedServer {
  import opened Prelude
  import opened BlockedIndex
  import opened BlockedKeyspace
  import opened BlockedServing
  import opened BlockedFairness
  import opened BlockedWaits
  import opened BlockedSteps
  import opened BlockedStreams
  import opened BlockedTurns
  import opened BlockedStages

  class Server {
    var x: Index
    var db: map<Key, Value>
    var replies: seq<Reply>

    constructor (clients: set<ClientId>)
      ensures Valid(x) && ReadyOk(x, []) && x.clients.Keys == clients && x.blocking == map[] && x.ready == []
      ensures db == map[] && replies == [] && Fair(x, db, {})
    {
      x := NobodyBlocked(clients);
      db := map[];
      replies := [];
      StartsValid(clients);
    }

    method SignalKeyAsReady(k: Key)
      modifies `x
      ensures x == Signal(old(x), k)
    {
      if k !in x.blocking { return; }
      if k in x.readySet { return; }
      x := x.(ready := x.ready + [k], readySet := x.readySet + {k});
    }

    method BlockForKeys(c: ClientId, t: BType, keys: seq<Key>, ids: seq<nat>, target: Option<Key>, where: Where,
        inGroup: bool)
      requires Valid(x) && c in x.clients && !x.clients[c].blocked && t != BNone && keys != [] && |ids| == |keys|
      modifies `x
      ensures Valid(x) && BlockedFor(old(x), x, c, Aim(t, target, where, inGroup), keys, ids)
    {
      hide Valid, AddKey, BlockedFor;
      ghost var start, aim := x, Aim(t, target, where, inGroup);
      x := x.(clients := x.clients[c := x.clients[c].(target := target, where := where, inGroup := inGroup)]);
      for j := 0 to |keys|
        invariant c in x.clients && x == AddKeys(Aimed(start, c, aim), c, keys[..j], ids[..j])
      {
        AddKeysNext(Aimed(start, c, aim), c, keys, ids, j);
        x := AddKey(x, c, keys[j], ids[j]);
      }
      assert keys[..|keys|] == keys && ids[..|keys|] == ids;
      BlockedAfterKeys(start, c, aim, keys, ids);
      x := MarkBlocked(x, c, t);
    }

    method UnblockClient(c: ClientId)
      requires Valid(x) && c in x.clients && x.clients[c].blocked
      modifies `x
      ensures old(x).clients[c].btype in old(x).byType && x == Unblock(old(x), c)
    {
      hide Valid, RemoveNode, DropNodes;
      ghost var x0 := x;
      UnblockNeeds(x, c);
      var s := x.clients[c];
      var left := s.keys.Keys;
      NoneDropped(x, c);
      while left != {}
        invariant left <= s.keys.Keys
        invariant x == x0.(blocking := DropNodes(x0.blocking, s.keys - left))
      {
        var k :| k in left;
        DropOne(x0.blocking, s.keys, left, k);
        assert k in x.blocking;
        var l := RemoveNode(x.blocking[k], s.keys[k].node);
        x := x.(blocking := if l == [] then x.blocking - {k} else x.blocking[k := l]);
        left := left - {k};
      }
      assert s.keys - left == s.keys;
      x := x.(clients := x.clients[c := s.(keys := map[], target := None, inGroup := false, blocked := false,
        btype := BNone)],
        blockedCount := x.blockedCount - 1,
        byType := x.byType[s.btype := x.byType[s.btype] - 1]);
      if !x.clients[c].unblocked {
        x := x.(clients := x.clients[c := x.clients[c].(unblocked := true)], unblockedList := x.unblockedList + [c]);
      }
    }

    /** serveClientBlockedOnList: false, with everything but the replies as it was, if the destination is of the wrong
        type. */
    method ServeClientBlockedOnList(receiver: ClientId, k: Key, dst: Option<Key>, v: Item) returns (ok: bool)
      modifies this
      ensures ok <==> (dst.Some? && dst.value in old(db) ==> old(db)[dst.value].ListVal?)
      ensures dst.None? ==> x == old(x) && db == old(db) && replies == old(replies) + [Popped(receiver, k, v)]
      ensures !ok ==> x == old(x) && db == old(db) && replies == old(replies) + [WrongType(receiver)]
      ensures ok && dst.Some? ==>
        && x == (if dst.value in old(db) then old(x) else Signal(old(x), dst.value))
        && db == PushTo(old(db), dst.value, v) && replies == old(replies) + [Moved(receiver, dst.value, v)]
    {
      if dst.None? {
        replies := replies + [Popped(receiver, k, v)];
        return true;
      }
      if dst.value in db && !db[dst.value].ListVal? {
        replies := replies + [WrongType(receiver)];
        return false;
      }
      if dst.value !in db {
        db := db[dst.value := ListVal([])];
        SignalKeyAsReady(dst.value);
      }
      db := db[dst.value := ListVal(Push(db[dst.value].items, v, Head))];
      replies := replies + [Moved(receiver, dst.value, v)];
      return true;
    }

    /** One turn of the loop over the clients of a list key, for a client that waits for a list. */
    method ServeHeadOfList(k: Key, ghost pending: seq<Key>)
      requires Valid(x) && ReadyOk(x, pending) && k in db && db[k].ListVal? && db[k].items != []
      requires k in x.blocking && x.blocking[k] != [] && x.blocking[k][0].client in x.clients
      requires x.clients[x.blocking[k][0].client].blocked
      modifies this
      ensures Valid(x) && ReadyOk(x, pending) && k in db && db[k].ListVal?
      ensures
        var c := old(x).blocking[k][0].client;
        && old(x).clients[c].btype in old(x).byType
        && x == UnblockFor(old(x), old(db), c)
        && x.clients == Unblock(old(x), c).clients && x.blocking == Unblock(old(x), c).blocking
        && x.blockedCount == old(x).blockedCount - 1
        && Receivers(replies) == Receivers(old(replies)) + [c]
      // The client takes the first item or the last
      ensures
        var c := old(x).blocking[k][0].client;
        var s := old(x).clients[c];
        Served(db, replies) == Turn(Served(old(db), old(replies)), k, c, s.where, s.target)
      ensures Total(db, replies) == Total(old(db), old(replies))
      ensures old(Fair(x, db, {k})) ==> Fair(x, db, {k})
    {
      hide Valid, ReadyOk, Fair, Total, Unblock;
      var c := x.blocking[k][0].client;
      var dst, where := x.clients[c].target, x.clients[c].where;
      ghost var x0, db0, replies0 := x, db, replies;
      var (v, rest) := Pop(db[k].items, where);
      db := db[k := ListVal(rest)];
      ghost var fair := Fair(x0, db0, {k});
      UnblockKeepsAll(x, db0, pending, k, rest, c);
      UnblockClient(c);
      ghost var x1, db1 := x, db;
      var ok := ServeClientBlockedOnList(c, k, dst, v);
      if !ok {
        db := db[k := ListVal(Push(db[k].items, v, where))];
      }
      ServedOne(x1, db0, pending, k, where, replies0, c, dst);
    }

    /** The list branch of handleClientsBlockedOnKeys; i clients were looked at. */
    method ServeList(k: Key, ghost pending: seq<Key>) returns (ghost i: nat)
      requires Valid(x) && ReadyOk(x, pending) && k in db && db[k].ListVal?
      modifies this
      ensures Valid(x) && ReadyOk(x, pending) && Shrinks(old(x), x)
      ensures ServedUpTo(old(x), x, k, BList, i) && (i == |Waiting(old(x), k)| || k !in db)
      ensures Receivers(replies) == Receivers(old(replies)) + Chosen(old(x), Waiting(old(x), k)[..i], BList)
      ensures k in db ==> db[k].ListVal? && db[k].items != []
      ensures
        var r := Turns(Served(old(db), old(replies)), k, old(x), Chosen(old(x), Waiting(old(x), k)[..i], BList));
        k in r.db && r.db[k].ListVal? && replies == r.replies && db == if r.db[k].items == [] then r.db - {k} else r.db
      ensures Total(db, replies) == Total(old(db), old(replies))
      ensures old(Fair(x, db, {k})) ==> Fair(x, db, {})
    {
      hide Valid, ReadyOk, Fair, Total, Unblock, ServedUpTo, Chosen, Receivers, Others, Turn, Turns, UnblockFor;
      ghost var x0, l0, start := x, Waiting(x, k), Served(db, replies);
      i := 0;
      ServedNone(x, k, BList);
      ServedBound(x, x, k, BList, 0);
      TurnsNone(start, k, x);
      if k in x.blocking {
        var n := |x.blocking[k]|;
        var numClients := n;
        while numClients > 0
          invariant numClients == n - i && i <= n == |l0|
          invariant Valid(x) && ReadyOk(x, pending) && Shrinks(x0, x) && k in db && db[k].ListVal?
          invariant ServedUpTo(x0, x, k, BList, i)
          invariant Receivers(replies) == Receivers(old(replies)) + Chosen(x0, l0[..i], BList)
          invariant Served(db, replies) == Turns(start, k, x0, Chosen(x0, l0[..i], BList))
          invariant Total(db, replies) == Total(old(db), old(replies))
          invariant Fair(x0, old(db), {k}) ==> Fair(x, db, {k})
        {
          numClients := numClients - 1;
          HeadIsNext(x0, x, k, BList, i);
          ChosenNext(x0, l0, i, BList);
          var receiver := x.blocking[k][0].client;
          if x.clients[receiver].btype != BList {
            assert Chosen(x0, l0[..i + 1], BList) == Chosen(x0, l0[..i], BList);
            RotateServed(x0, x, k, BList, i);
            RotateKeepsAll(x, db, pending, k);
            x := Rotate(x, k);
          } else if db[k].items == [] {
            break;
          } else {
            UnblockNeeds(x, receiver);
            UnblockServed(x0, x, k, BList, i);
            ghost var before := x;
            TurnsNext(start, k, x0, Chosen(x0, l0[..i], BList), receiver);
            assert Chosen(x0, l0[..i + 1], BList) == Chosen(x0, l0[..i], BList) + [receiver];
            ServeHeadOfList(k, pending);
            ServedFrame(x0, Unblock(before, receiver), x, k, BList, i + 1);
          }
          i := i + 1;
        }
      }
      ListDone(x0, x, db, replies, k, i);
      if db[k].items == [] {
        db := db - {k};
      }
    }

    /** One turn of the loop over the clients of a sorted set key, for a client that waits for a sorted set. */
    method ServeHeadOfZSet(k: Key, ghost pending: seq<Key>, ghost start: map<Key, Value>)
      requires Valid(x) && ReadyOk(x, pending) && k in db && db[k].ZSetVal? && db[k].members > 0
      requires k in start && db == Remaining(start, k, db[k].members)
      requires k in x.blocking && x.blocking[k] != [] && x.blocking[k][0].client in x.clients
      requires x.clients[x.blocking[k][0].client].blocked
      modifies this
      ensures
        var c := old(x).blocking[k][0].client;
        && old(x).clients[c].btype in old(x).byType && x == Unblock(old(x), c)
        && x.ready == old(x).ready && x.blockedCount == old(x).blockedCount - 1
        && replies == old(replies) + [ZPopped(c, k)]
        && Receivers(replies) == Receivers(old(replies)) + [c] && Delivered(replies) == Delivered(old(replies))
      ensures db == Remaining(start, k, old(db)[k].members - 1)
      ensures Valid(x) && ReadyOk(x, pending) && (Fair(old(x), start, {k}) ==> Fair(x, start, {k}))
    {
      hide Valid, ReadyOk, Fair, Receivers, Delivered, Remaining;
      var receiver := x.blocking[k][0].client;
      UnblockNeeds(x, receiver);
      UnblockKeepsRest(x, start, pending, k, receiver);
      UnblockClient(receiver);
      DeliveredNext(replies, ZPopped(receiver, k));
      replies := replies + [ZPopped(receiver, k)];
      RemainingNext(start, k, db[k].members);
      db := if db[k].members == 1 then db - {k} else db[k := ZSetVal(db[k].members - 1)];
    }

    /** The sorted set branch; every client looked at and waiting for a sorted set takes one member. */
    method ServeZSet(k: Key, ghost pending: seq<Key>) returns (ghost i: nat)
      requires Valid(x) && ReadyOk(x, pending) && k in db && db[k].ZSetVal? && db[k].members > 0
      modifies this
      ensures Valid(x) && ReadyOk(x, pending) && Shrinks(old(x), x)
      ensures ServedUpTo(old(x), x, k, BZSet, i) && (i == |Waiting(old(x), k)| || k !in db)
      ensures
        var chosen := Chosen(old(x), Waiting(old(x), k)[..i], BZSet);
        && Receivers(replies) == Receivers(old(replies)) + chosen
        && |chosen| <= old(db)[k].members
        && db == Remaining(old(db), k, old(db)[k].members - |chosen|)
        && (|chosen| == old(db)[k].members ==> k !in db)
        && (|chosen| < old(db)[k].members ==> k in db && db[k] == ZSetVal(old(db)[k].members - |chosen|))
        && db - {k} == old(db) - {k}
      ensures Total(db, replies) == Total(old(db), old(replies))
      ensures old(Fair(x, db, {k})) ==> Fair(x, db, {})
    {
      hide Valid, ReadyOk, Fair, Total, Unblock, ServedUpTo, Chosen, Receivers, Others, Remaining, Delivered;
      ghost var x0, l0, start := x, Waiting(x, k), db;
      i := 0;
      ServedNone(x, k, BZSet);
      ServedBound(x, x, k, BZSet, 0);
      RemainingAll(db, k);
      var zcard := db[k].members;
      if k in x.blocking {
        var n := |x.blocking[k]|;
        var numClients := n;
        while numClients > 0 && zcard > 0
          invariant numClients == n - i && i <= n == |l0|
          invariant Valid(x) && ReadyOk(x, pending) && Shrinks(x0, x)
          invariant zcard == start[k].members - |Chosen(x0, l0[..i], BZSet)|
          invariant db == Remaining(start, k, zcard)
          invariant ServedUpTo(x0, x, k, BZSet, i)
          invariant Receivers(replies) == Receivers(old(replies)) + Chosen(x0, l0[..i], BZSet)
          invariant Delivered(replies) == Delivered(old(replies))
          invariant Fair(x0, start, {k}) ==> Fair(x, start, {k})
          decreases numClients
        {
          numClients := numClients - 1;
          HeadIsNext(x0, x, k, BZSet, i);
          ChosenNext(x0, l0, i, BZSet);
          var receiver := x.blocking[k][0].client;
          if x.clients[receiver].btype != BZSet {
            RotateServed(x0, x, k, BZSet, i);
            RotateKeepsAll(x, start, pending, k);
            x := Rotate(x, k);
          } else {
            UnblockNeeds(x, receiver);
            UnblockServed(x0, x, k, BZSet, i);
            RemainingNext(start, k, zcard);
            ServeHeadOfZSet(k, pending, start);
            zcard := zcard - 1;
          }
          i := i + 1;
        }
      }
      ZSetDone(x0, x, start, old(replies), replies, k, i, zcard);
      RemainingIs(start, k, zcard);
    }

    /** Answers the client at the iterator and unblocks it. */
    method ServeStreamClient(k: Key, gone: bool, ghost x0: Index, ghost pending: seq<Key>, ghost kept: seq<Entry>,
        l: seq<Entry>, i: nat)
      requires Valid(x) && ReadyOk(x, pending) && NeverBlocks(x0, x) && i < |l| && Waiting(x, k) == kept + l[i..]
      requires Untouched(x0, x, l, i + 1) && l == Waiting(x0, k) && WaitOk(x0) && k in db
      requires NoneServable(x, k, kept, db[k])
      requires l[i].client in x.clients && x.clients[l[i].client].blocked
      modifies `x, `replies
      ensures Valid(x) && ReadyOk(x, pending) && NeverBlocks(x0, x) && Untouched(x0, x, l, i + 1)
      ensures Waiting(x, k) == kept + l[i + 1..] && NoneServable(x, k, kept, db[k])
      ensures x.blockedCount == old(x).blockedCount - 1 && x.ready == old(x).ready
      ensures replies == old(replies) + [if gone then NoGroup(l[i].client) else Entries(l[i].client, k)]
      ensures Receivers(replies) == Receivers(old(replies)) + [l[i].client]
      ensures Delivered(replies) == Delivered(old(replies))
      ensures Fair(old(x), db, {k}) ==> Fair(x, db, {k})
    {
      hide Valid, ReadyOk, Fair, Unblock, Receivers, NeverBlocks, Delivered, NoneServable, Untouched, WaitOk;
      var receiver := l[i].client;
      var reply := if gone then NoGroup(receiver) else Entries(receiver, k);
      DeliveredNext(replies, reply);
      replies := replies + [reply];
      RemoveFromMiddle(x0, x, db, pending, k, kept, l, i);
      UnblockClient(receiver);
    }

    /** The stream branch: each waiting client stays or is answered, in order; the iterator survives the removals. */
    method ServeStream(k: Key, ghost pending: seq<Key>) returns (ghost served: seq<ClientId>)
      requires Valid(x) && ReadyOk(x, pending) && k in db && db[k].StreamVal?
      modifies `x, `replies
      ensures Valid(x) && ReadyOk(x, pending) && Shrinks(old(x), x) && NeverBlocks(old(x), x)
      ensures Splits(Waiting(old(x), k), Waiting(x, k), served)
      ensures Receivers(replies) == Receivers(old(replies)) + served
      ensures forall c <- served :: Awaited(old(x), k, c, db[k])
      ensures NoneServable(x, k, Waiting(x, k), db[k])
      ensures Delivered(replies) == Delivered(old(replies))
      ensures old(Fair(x, db, {k})) ==> Fair(x, db, {})
    {
      hide Valid, ReadyOk, Fair, Unblock, Receivers, NeverBlocks, Delivered, Splits, NoneServable, Untouched, Awaited,
        CanServe, MoveId, Waiting, WaitOk;
      ghost var x0, l0, kept: seq<Entry> := x, Waiting(x, k), [];
      served := [];
      StreamStart(x, k, db[k]);
      if k in x.blocking {
        var l := x.blocking[k];
        for i := 0 to |l|
          invariant l == l0 && Valid(x) && ReadyOk(x, pending) && Shrinks(x0, x) && NeverBlocks(x0, x)
          invariant Waiting(x, k) == kept + l[i..] && Splits(l[..i], kept, served) && Untouched(x0, x, l, i)
          invariant Receivers(replies) == Receivers(old(replies)) + served
          invariant forall c <- served :: Awaited(x0, k, c, db[k])
          invariant NoneServable(x, k, kept, db[k])
          invariant Delivered(replies) == Delivered(old(replies))
          invariant Fair(x0, db, {k}) ==> Fair(x, db, {k})
        {
          StreamNext(x0, x, k, kept, served, l, i, db[k]);
          var receiver := l[i].client;
          if x.clients[receiver].btype != BStream {
            kept := kept + [l[i]];
            continue;
          }
          var gone := false;
          if x.clients[receiver].inGroup {
            // The consumer group may be gone; otherwise the client waits for what the group has not seen yet.
            var group: Option<nat> := *;
            if group.Some? {
              MoveKeepsAll(x0, x, db, pending, k, kept, l, i, group.value);
              x := MoveId(x, receiver, k, group.value);
            } else {
              gone := true;
            }
          }
          var gt := x.clients[receiver].keys[k].streamId;
          if gone || db[k].lastId > gt {
            ServeStreamClient(k, gone, x0, pending, kept, l, i);
            served := served + [receiver];
          } else {
            KeepEntry(x, k, kept, l[i], db[k]);
            kept := kept + [l[i]];
          }
        }
        assert l[..|l|] == l && l[|l|..] == [];
      }
      StreamDone(x, db, k, kept);
    }

    /** The body of the inner loop of handleClientsBlockedOnKeys, for one ready key. */
    method ServeKey(k: Key, ghost pending: seq<Key>)
      requires Valid(x) && ReadyOk(x, pending)
      modifies this
      ensures Valid(x) && ReadyOk(x, pending) && Shrinks(old(x), x) && NeverBlocks(old(x), x)
      ensures KeyServed(k, Moment(old(x), old(db), old(replies)), Moment(x, db, replies))
      ensures Total(db, replies) == Total(old(db), old(replies))
      ensures old(Fair(x, db, {k})) && (k in old(db) ==> Held(old(db)[k])) ==> Fair(x, db, {})
    {
      hide Valid, ReadyOk, Fair, Total, Unblock, ServedUpTo, NeverBlocks, NoneServable, Remaining, Chosen, Receivers,
        Delivered, Splits, Awaited, Waiting, Turns;
      ghost var x0, replies0, start := x, replies, Moment(x, db, replies);
      NeverBlocksSelf(x);
      if k in db && db[k].ListVal? {
        ghost var i := ServeList(k, pending);
        ServedBound(x0, x, k, BList, i);
        ServedNeverBlocks(x0, x, k, BList, i);
        assert ListServed(start, Moment(x, db, replies), k, i);
      } else if k in db && db[k].ZSetVal? && db[k].members > 0 {
        ghost var i := ServeZSet(k, pending);
        ServedBound(x0, x, k, BZSet, i);
        ServedNeverBlocks(x0, x, k, BZSet, i);
        assert ZSetServed(start, Moment(x, db, replies), k, i);
      } else if k in db && db[k].StreamVal? {
        ghost var served := ServeStream(k, pending);
        SameTotal(db, replies0, replies);
        assert StreamServed(start, Moment(x, db, replies), k, served);
      } else {
        NothingToServe(x, db, k);
      }
    }

    /** The keys that were ready are served in order, and after them those that became ready meanwhile. */
    method HandleClientsBlockedOnKeys() returns (ghost stages: seq<Stage>)
      requires Valid(x) && ReadyOk(x, [])
      modifies this
      ensures Valid(x) && x.ready == [] && x.readySet == {} && NeverBlocks(old(x), x)
      ensures Total(db, replies) == Total(old(db), old(replies))
      ensures Chain(Moment(old(x), old(db), old(replies)), stages, Moment(x, db, replies))
      ensures old(x).ready <= Keys(stages)
      ensures old(Fair(x, db, {})) ==> forall k <- db :: Held(db[k]) && !Starved(x, k, db[k])
    {
      hide Valid, ReadyOk, Fair, Total, NeverBlocks, Held, Starved, KeyServed, Chain, Keys;
      ghost var start := Moment(x, db, replies);
      stages := [];
      ChainStart(start);
      ghost var fair := Fair(x, db, {});
      CountIsNat(x);
      NeverBlocksSelf(x);
      while |x.ready| != 0
        invariant Valid(x) && ReadyOk(x, []) && x.blockedCount >= 0 && NeverBlocks(old(x), x)
        invariant Total(db, replies) == Total(old(db), old(replies))
        invariant fair ==> Fair(x, db, {})
        invariant Chain(start, stages, Moment(x, db, replies)) && start.x.ready <= Keys(stages) + x.ready
        decreases x.blockedCount, |x.ready|
      {
        ghost var round := x;
        var l := x.ready;
        TakeReady(x, db);
        ChainMoves(start, stages, Moment(x, db, replies), Moment(x.(ready := []), db, replies));
        x := x.(ready := []);
        while |l| != 0
          invariant Valid(x) && ReadyOk(x, l) && x.blockedCount >= 0 && NeverBlocks(old(x), x)
          invariant x.blockedCount < round.blockedCount || (x.blockedCount == round.blockedCount && x.ready == [])
          invariant Total(db, replies) == Total(old(db), old(replies))
          invariant fair ==> Fair(x, db, {})
          invariant Chain(start, stages, Moment(x, db, replies)) && start.x.ready <= Keys(stages) + l
          decreases |l|
        {
          var k := l[0];
          ghost var before := x;
          TakeKey(x, db, l);
          ghost var taken := x.(readySet := x.readySet - {k});
          ChainMoves(start, stages, Moment(x, db, replies), Moment(taken, db, replies));
          x := x.(readySet := x.readySet - {k});
          ghost var stage := Moment(x, db, replies);
          ServeKey(k, l[1..]);
          ChainNext(start, stages, k, stage, Moment(x, db, replies));
          KeysNext(start.x.ready, Keys(stages), l);
          stages := stages + [Stage(k, stage, Moment(x, db, replies))];
          NeverBlocksTrans(before, taken, x);
          NeverBlocksTrans(old(x), before, x);
          CountIsNat(x);
          l := l[1..];
        }
      }
      Quiet(x, db);
    }

    /** One turn of processUnblockedClients: the client may run commands again. */
    method TakeUnblocked() returns (c: ClientId)
      requires Valid(x) && x.unblockedList != []
      modifies `x
      ensures Valid(x) && c == old(x).unblockedList[0] && x.unblockedList == old(x).unblockedList[1..]
      ensures c in old(x).clients && x.clients == old(x).clients[c := old(x).clients[c].(unblocked := false)]
    {
      c := x.unblockedList[0];
      TakeUnblockedKeepsValid(x);
      x := x.(unblockedList := x.unblockedList[1..], clients := x.clients[c := x.clients[c].(unblocked := false)]);
    }
  }
}
