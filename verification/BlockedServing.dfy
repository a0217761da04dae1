/** How far a key's waiting clients have been served, as a relation between two states of the index. */
module BlockedServing {
  import opened Prelude
  import opened BlockedIndex

  /** The clients waiting for a key, first to last. */
  function Waiting(x: Index, k: Key): seq<Entry> {
    if k in x.blocking then x.blocking[k] else []
  }

  predicate IsType(x: Index, e: Entry, t: BType) {
    e.client in x.clients && x.clients[e.client].btype == t
  }

  /** The entries whose clients wait for something of another type, in order. */
  function Others(x: Index, l: seq<Entry>, t: BType): seq<Entry> {
    if l == [] then []
    else Others(x, l[..|l| - 1], t) + (if IsType(x, l[|l| - 1], t) then [] else [l[|l| - 1]])
  }

  function Matching(x: Index, l: seq<Entry>, t: BType): set<ClientId> {
    set e <- l | IsType(x, e, t) :: e.client
  }

  lemma OthersNext(x: Index, l: seq<Entry>, i: nat, t: BType)
    requires i < |l|
    ensures Others(x, l[..i + 1], t) == Others(x, l[..i], t) + (if IsType(x, l[i], t) then [] else [l[i]])
  {
    assert l[..i + 1][..i] == l[..i];
  }

  lemma MatchingNext(x: Index, l: seq<Entry>, i: nat, t: BType)
    requires i < |l|
    ensures Matching(x, l[..i + 1], t) == Matching(x, l[..i], t) + (if IsType(x, l[i], t) then {l[i].client} else {})
  {
    assert l[..i + 1] == l[..i] + [l[i]];
  }

  /** Clients are unblocked, or exactly as before. */
  ghost predicate OnlyUnblocks(x0: Index, x: Index, gone: set<ClientId>) {
    && x.clients.Keys == x0.clients.Keys
    && forall c <- x0.clients :: if c in gone then !x.clients[c].blocked else x.clients[c] == x0.clients[c]
  }

  /** The first i clients of k's list were looked at: those of type t were unblocked, in order, and the others
      were moved to the end, in order. */
  ghost predicate ServedUpTo(x0: Index, x: Index, k: Key, t: BType, i: nat) {
    var l := Waiting(x0, k);
    && i <= |l|
    && Waiting(x, k) == l[i..] + Others(x0, l[..i], t)
    && OnlyUnblocks(x0, x, Matching(x0, l[..i], t))
  }

  lemma ServedNone(x: Index, k: Key, t: BType)
    ensures ServedUpTo(x, x, k, t, 0)
  {
    var l := Waiting(x, k);
    assert l[0..] + [] == l;
  }

  /** A client occurs once in a key's list. */
  lemma OncePerKey(x: Index, k: Key, i: nat, j: nat)
    requires WaitOk(x) && k in x.blocking && i < j < |x.blocking[k]|
    ensures x.blocking[k][i].client != x.blocking[k][j].client
  {
    assert KeyOk(x, k);
    var l := x.blocking[k];
    assert l[i] in l && l[j] in l;
  }

  /** The next client to look at is none of those already unblocked. */
  lemma NextIsUntouched(x: Index, k: Key, t: BType, i: nat)
    requires WaitOk(x) && k in x.blocking && i < |x.blocking[k]|
    ensures x.blocking[k][i].client in x.clients
    ensures x.blocking[k][i].client !in Matching(x, x.blocking[k][..i], t)
  {
    var l := x.blocking[k];
    assert KeyOk(x, k);
    assert l[i] in l;
    forall j | 0 <= j < i
      ensures l[j].client != l[i].client
    {
      OncePerKey(x, k, j, i);
    }
  }

  /** There always is a head to look at, and it is the next client in the original order, untouched so far. */
  lemma HeadIsNext(x0: Index, x: Index, k: Key, t: BType, i: nat)
    requires Valid(x0) && ServedUpTo(x0, x, k, t, i) && i < |Waiting(x0, k)|
    ensures k in x.blocking && x.blocking[k] != [] && x.blocking[k][0] == Waiting(x0, k)[i]
    ensures
      var c := x.blocking[k][0].client;
      c in x0.clients && c in x.clients && x.clients[c] == x0.clients[c] && x.clients[c].blocked
  {
    hide Matching, Others, CountsOk, UnblockedOk, WaitOk;
    NextIsUntouched(x0, k, t, i);
    var l := Waiting(x0, k);
    WaitersAreBlocked(x0, k, i);
  }

  lemma WaitersAreBlocked(x: Index, k: Key, i: nat)
    requires WaitOk(x) && AllFlagsOk(x) && k in x.blocking && i < |x.blocking[k]|
    ensures x.blocking[k][i].client in x.clients && x.clients[x.blocking[k][i].client].blocked
  {
    var l := x.blocking[k];
    assert KeyOk(x, k);
    assert l[i] in l;
    assert FlagsOk(x.clients[l[i].client]);
  }

  lemma RotateServed(x0: Index, x: Index, k: Key, t: BType, i: nat)
    requires ServedUpTo(x0, x, k, t, i) && i < |Waiting(x0, k)| && k in x.blocking && x.blocking[k] != []
    requires x.blocking[k][0] == Waiting(x0, k)[i] && !IsType(x0, Waiting(x0, k)[i], t)
    ensures ServedUpTo(x0, Rotate(x, k), k, t, i + 1)
  {
    var l := Waiting(x0, k);
    OthersNext(x0, l, i, t);
    MatchingNext(x0, l, i, t);
    hide Others, Matching;
    var o := Others(x0, l[..i], t);
    assert (l[i..] + o)[1..] + [l[i]] == l[i + 1..] + (o + [l[i]]);
  }

  lemma UnblockServed(x0: Index, x: Index, k: Key, t: BType, i: nat)
    requires Valid(x) && ServedUpTo(x0, x, k, t, i) && i < |Waiting(x0, k)| && k in x.blocking && x.blocking[k] != []
    requires x.blocking[k][0] == Waiting(x0, k)[i] && IsType(x0, Waiting(x0, k)[i], t)
    requires
      var c := x.blocking[k][0].client;
      c in x.clients && x.clients[c].blocked && x.clients[c].btype in x.byType
    ensures ServedUpTo(x0, Unblock(x, x.blocking[k][0].client), k, t, i + 1)
  {
    hide Others, Matching, Valid, Unblock, IsType;
    var l := Waiting(x0, k);
    OthersNext(x0, l, i, t);
    MatchingNext(x0, l, i, t);
    UnblockHead(x, k);
    var c := x.blocking[k][0].client;
    UnblockOnlyUnblocks(x0, x, Matching(x0, l[..i], t), c);
    var o := Others(x0, l[..i], t);
    assert (l[i..] + o)[1..] == l[i + 1..] + (o + []);
  }

  lemma UnblockOnlyUnblocks(x0: Index, x: Index, gone: set<ClientId>, c: ClientId)
    requires OnlyUnblocks(x0, x, gone) && c in x.clients && x.clients[c].btype in x.byType
    ensures OnlyUnblocks(x0, Unblock(x, c), gone + {c})
  {
  }

  lemma UnblockHead(x: Index, k: Key)
    requires Valid(x) && k in x.blocking && x.blocking[k] != []
    requires
      var c := x.blocking[k][0].client;
      c in x.clients && x.clients[c].btype in x.byType
    ensures Waiting(Unblock(x, x.blocking[k][0].client), k) == x.blocking[k][1..]
  {
    assert KeyOk(x, k);
    assert x.blocking[k][0] in x.blocking[k];
    RemoveHead(x.blocking[k]);
  }

  /** Only the clients and the lists matter. */
  lemma ServedFrame(x0: Index, x: Index, y: Index, k: Key, t: BType, i: nat)
    requires ServedUpTo(x0, x, k, t, i) && y.clients == x.clients && y.blocking == x.blocking
    ensures ServedUpTo(x0, y, k, t, i)
  {
  }

  /** The clients of type t, in the order they wait. */
  function Chosen(x: Index, l: seq<Entry>, t: BType): seq<ClientId> {
    if l == [] then []
    else Chosen(x, l[..|l| - 1], t) + (if IsType(x, l[|l| - 1], t) then [l[|l| - 1].client] else [])
  }

  lemma ChosenNext(x: Index, l: seq<Entry>, i: nat, t: BType)
    requires i < |l|
    ensures Chosen(x, l[..i + 1], t) == Chosen(x, l[..i], t) + (if IsType(x, l[i], t) then [l[i].client] else [])
  {
    assert l[..i + 1][..i] == l[..i];
  }

  // ---------------------------------------------------------------------------
  // Progress
  // ---------------------------------------------------------------------------

  /** The client waits for what it waited for; at most its stream IDs moved. */
  ghost predicate SameWait(s: Client, s': Client) {
    && s'.btype == s.btype && s'.target == s.target && s'.where == s.where && s'.inGroup == s.inGroup
    && s'.keys.Keys == s.keys.Keys && forall k <- s.keys :: s'.keys[k].node == s.keys[k].node
  }

  /** No client became blocked, and whoever still is waits as before. */
  ghost predicate NeverBlocks(x0: Index, x: Index) {
    && x.clients.Keys == x0.clients.Keys
    && forall c <- x0.clients :: x.clients[c].blocked ==> x0.clients[c].blocked && SameWait(x0.clients[c], x.clients[c])
  }

  /** Keys became ready only if fewer clients are blocked. */
  ghost predicate Shrinks(x0: Index, x: Index) {
    x.blockedCount <= x0.blockedCount && (x.ready == x0.ready || x.blockedCount < x0.blockedCount)
  }

  lemma NeverBlocksTrans(x0: Index, x: Index, y: Index)
    requires NeverBlocks(x0, x) && NeverBlocks(x, y)
    ensures NeverBlocks(x0, y)
  {
    forall c <- x0.clients | y.clients[c].blocked
      ensures x0.clients[c].blocked && SameWait(x0.clients[c], y.clients[c])
    {
      assert SameWait(x.clients[c], y.clients[c]) && SameWait(x0.clients[c], x.clients[c]);
    }
  }

  lemma ServedNeverBlocks(x0: Index, x: Index, k: Key, t: BType, i: nat)
    requires ServedUpTo(x0, x, k, t, i)
    ensures NeverBlocks(x0, x)
  {
    hide Matching, Others;
  }
}
