/**
 Slot claims as a node receives them over time.

 A claim takes a slot from an owner whose recorded epoch is lower, and the recorded epoch of a node is the
 greatest it was ever heard with, even if that claim did not name the slot any more. So the order of claims
 can matter; this module says for every slot exactly when it does, and who owns the slot when it does not.
 */
module SlotClaims {
  import opened Prelude
  import opened SlotBitmap

  /** What a master says about itself in a packet: its slots under its configuration epoch. */
  datatype Claim<T> = Claim(sender: T, epoch: nat, slots: set<nat>)

  /** What a node knows: the owner of every slot, and the epochs of the nodes. */
  datatype View<T(==)> = View(owners: seq<Option<T>>, epochs: map<T, nat>)

  ghost predicate Valid<T>(v: View<T>) {
    && |v.owners| == CLUSTER_SLOTS
    && forall j :: 0 <= j < CLUSTER_SLOTS && v.owners[j].Some? ==> v.owners[j].value in v.epochs
  }

  ghost predicate Takes<T>(v: View<T>, c: Claim<T>, j: nat)
    requires Valid(v) && j < CLUSTER_SLOTS
  {
    && j in c.slots && v.owners[j] != Some(c.sender)
    && (v.owners[j].Some? ==> v.epochs[v.owners[j].value] < c.epoch)
  }

  ghost function Learn<T>(epochs: map<T, nat>, c: Claim<T>): map<T, nat> {
    if c.sender in epochs && epochs[c.sender] >= c.epoch then epochs else epochs[c.sender := c.epoch]
  }

  ghost function Receive<T>(v: View<T>, c: Claim<T>): (r: View<T>)
    requires Valid(v)
    ensures Valid(r)
  {
    View(seq(CLUSTER_SLOTS, j requires 0 <= j < CLUSTER_SLOTS =>
           if Takes(v, c, j) then Some(c.sender) else v.owners[j]),
      Learn(v.epochs, c))
  }

  ghost function ReceiveAll<T>(v: View<T>, cs: seq<Claim<T>>): (r: View<T>)
    requires Valid(v)
    ensures Valid(r)
  {
    if cs == [] then v else Receive(ReceiveAll(v, cs[..|cs| - 1]), cs[|cs| - 1])
  }

  // ---------------------------------------------------------------------------
  // Everything heard, the start table included
  // ---------------------------------------------------------------------------

  /** What the view holds about a node, as the claim it would have come from. */
  ghost function Remembered<T>(v: View<T>, s: T): Claim<T>
    requires Valid(v) && s in v.epochs
  {
    Claim(s, v.epochs[s], set j | 0 <= j < CLUSTER_SLOTS && v.owners[j] == Some(s))
  }

  ghost function Past<T>(v: View<T>): set<Claim<T>>
    requires Valid(v)
  {
    set s <- v.epochs :: Remembered(v, s)
  }

  ghost function Heard<T>(v: View<T>, cs: seq<Claim<T>>): set<Claim<T>>
    requires Valid(v)
  {
    Past(v) + set c <- cs
  }

  /** A claim that can own the slot at some moment: the owner's, or one above the owner's recorded epoch. */
  ghost predicate Live<T>(v: View<T>, c: Claim<T>, j: nat)
    requires Valid(v) && j < CLUSTER_SLOTS
  {
    j in c.slots
      && (v.owners[j].Some? ==> c == Remembered(v, v.owners[j].value) || c.epoch > v.epochs[v.owners[j].value])
  }

  /** A live claim of the greatest epoch. */
  ghost predicate Winner<T>(v: View<T>, heard: set<Claim<T>>, e: Claim<T>, j: nat)
    requires Valid(v) && j < CLUSTER_SLOTS
  {
    e in heard && Live(v, e, j) && forall c <- heard :: Live(v, c, j) ==> c.epoch <= e.epoch
  }

  /** Nobody else with a live claim on the slot was ever heard with an epoch that reaches the winner's. */
  ghost predicate Uncontested<T>(v: View<T>, heard: set<Claim<T>>, j: nat)
    requires Valid(v) && j < CLUSTER_SLOTS
  {
    forall e <- heard, c <- heard, d <- heard ::
      Winner(v, heard, e, j) && Live(v, c, j) && c.sender == d.sender && c.sender != e.sender ==> d.epoch < e.epoch
  }

  // ---------------------------------------------------------------------------
  // What receiving keeps
  // ---------------------------------------------------------------------------

  /** The recorded epoch of a node is the greatest it was heard with. */
  ghost predicate Recorded<T>(w: View<T>, heard: set<Claim<T>>) {
    && (forall c <- heard :: c.sender in w.epochs && c.epoch <= w.epochs[c.sender])
    && (forall s <- w.epochs :: exists c <- heard :: c.sender == s && c.epoch == w.epochs[s])
  }

  /** Whoever owns the slot has a live claim on it. */
  ghost predicate OwnerClaimed<T>(v: View<T>, w: View<T>, heard: set<Claim<T>>, j: nat)
    requires Valid(v) && Valid(w) && j < CLUSTER_SLOTS
  {
    && (w.owners[j].Some? ==> exists c <- heard :: c.sender == w.owners[j].value && Live(v, c, j))
    && (v.owners[j].Some? ==> w.owners[j].Some? && w.epochs[w.owners[j].value] >= v.epochs[v.owners[j].value])
    && (w.owners[j] == None ==> forall c <- heard :: j !in c.slots)
  }

  lemma StartRecorded<T>(v: View<T>, j: nat)
    requires Valid(v) && j < CLUSTER_SLOTS
    ensures Recorded(v, Past(v)) && OwnerClaimed(v, v, Past(v), j)
  {
    forall s <- v.epochs
      ensures exists c <- Past(v) :: c.sender == s && c.epoch == v.epochs[s]
    {
      assert Remembered(v, s) in Past(v);
    }
    if v.owners[j].Some? {
      assert Remembered(v, v.owners[j].value) in Past(v);
    }
  }

  lemma ReceiveRecorded<T>(w: View<T>, heard: set<Claim<T>>, c: Claim<T>)
    requires Valid(w) && Recorded(w, heard)
    ensures Recorded(Receive(w, c), heard + {c})
  {
    var r := Receive(w, c);
    forall s <- r.epochs
      ensures exists d <- heard + {c} :: d.sender == s && d.epoch == r.epochs[s]
    {
      if s != c.sender || r.epochs == w.epochs {
        var d :| d in heard && d.sender == s && d.epoch == w.epochs[s];
        assert d in heard + {c};
      } else {
        assert c in heard + {c};
      }
    }
  }

  lemma ReceiveOwner<T>(v: View<T>, w: View<T>, heard: set<Claim<T>>, c: Claim<T>, j: nat)
    requires Valid(v) && Valid(w) && j < CLUSTER_SLOTS && OwnerClaimed(v, w, heard, j)
    ensures OwnerClaimed(v, Receive(w, c), heard + {c}, j)
  {
    var r, all := Receive(w, c), heard + {c};
    assert c in all;
    if Takes(w, c, j) {
      assert Live(v, c, j);
    } else if w.owners[j].Some? {
      var d :| d in heard && d.sender == w.owners[j].value && Live(v, d, j);
      assert d in all;
    }
  }

  lemma {:induction false} Tracks<T>(v: View<T>, cs: seq<Claim<T>>, j: nat)
    requires Valid(v) && j < CLUSTER_SLOTS
    ensures Recorded(ReceiveAll(v, cs), Heard(v, cs)) && OwnerClaimed(v, ReceiveAll(v, cs), Heard(v, cs), j)
    decreases |cs|
  {
    hide Recorded, OwnerClaimed, Receive, Past;
    if cs == [] {
      StartRecorded(v, j);
      assert Heard(v, cs) == Past(v);
    } else {
      var n := |cs| - 1;
      Tracks(v, cs[..n], j);
      var w, heard := ReceiveAll(v, cs[..n]), Heard(v, cs[..n]);
      ReceiveRecorded(w, heard, cs[n]);
      ReceiveOwner(v, w, heard, cs[n], j);
      HeardNext(v, cs);
    }
  }

  lemma HeardNext<T>(v: View<T>, cs: seq<Claim<T>>)
    requires Valid(v) && cs != []
    ensures Heard(v, cs) == Heard(v, cs[..|cs| - 1]) + {cs[|cs| - 1]}
  {
    hide Past;
    var n := |cs| - 1;
    assert cs == cs[..n] + [cs[n]];
  }

  // ---------------------------------------------------------------------------
  // The order does not matter
  // ---------------------------------------------------------------------------

  lemma StaysOwned<T>(v: View<T>, w: View<T>, c: Claim<T>, e: Claim<T>, j: nat)
    requires Valid(v) && Valid(w) && j < CLUSTER_SLOTS && w.owners[j] == Some(e.sender)
    requires w.epochs[e.sender] >= e.epoch && (Live(v, c, j) ==> c.epoch <= e.epoch)
    requires v.owners[j].Some? ==> w.epochs[e.sender] >= v.epochs[v.owners[j].value]
    ensures Receive(w, c).owners[j] == Some(e.sender)
  {
  }

  /** The epochs of an owner other than the winner stay below the winner's. */
  lemma OwnerIsBelow<T>(v: View<T>, w: View<T>, heard: set<Claim<T>>, all: set<Claim<T>>, e: Claim<T>, j: nat)
    requires Valid(v) && Valid(w) && j < CLUSTER_SLOTS && Recorded(w, heard) && OwnerClaimed(v, w, heard, j)
    requires heard <= all && Uncontested(v, all, j) && Winner(v, all, e, j)
    ensures w.owners[j].Some? && w.owners[j].value != e.sender ==> w.epochs[w.owners[j].value] < e.epoch
  {
    hide Winner;
    if w.owners[j].Some? {
      var o := w.owners[j].value;
      var c :| c in heard && c.sender == o && Live(v, c, j);
      var d :| d in heard && d.sender == o && d.epoch == w.epochs[o];
      assert e in all && c in all && d in all by { WinnerHeard(v, all, e, j); }
    }
  }

  lemma WinnerHeard<T>(v: View<T>, all: set<Claim<T>>, e: Claim<T>, j: nat)
    requires Valid(v) && j < CLUSTER_SLOTS && Winner(v, all, e, j)
    ensures e in all && j in e.slots && forall c <- all :: Live(v, c, j) ==> c.epoch <= e.epoch
  {
  }

  lemma TakesOver<T>(w: View<T>, e: Claim<T>, j: nat)
    requires Valid(w) && j < CLUSTER_SLOTS && j in e.slots
    requires w.owners[j].Some? && w.owners[j].value != e.sender ==> w.epochs[w.owners[j].value] < e.epoch
    ensures Receive(w, e).owners[j] == Some(e.sender)
  {
  }

  /** Once the winner was heard, its sender owns the slot for good. */
  lemma ReceiveWinner<T>(v: View<T>, w: View<T>, heard: set<Claim<T>>, c: Claim<T>, all: set<Claim<T>>, e: Claim<T>,
      j: nat)
    requires Valid(v) && Valid(w) && j < CLUSTER_SLOTS && Recorded(w, heard) && OwnerClaimed(v, w, heard, j)
    requires heard + {c} <= all && Uncontested(v, all, j) && Winner(v, all, e, j)
    requires e in heard ==> w.owners[j] == Some(e.sender)
    ensures e in heard + {c} ==> Receive(w, c).owners[j] == Some(e.sender)
  {
    hide Receive, Uncontested, Winner, Live;
    WinnerHeard(v, all, e, j);
    if e in heard {
      assert c in all;
      StaysOwned(v, w, c, e, j);
    } else if c == e {
      OwnerIsBelow(v, w, heard, all, e, j);
      TakesOver(w, e, j);
    }
  }

  lemma {:induction false} WinnerOwns<T>(v: View<T>, cs: seq<Claim<T>>, all: set<Claim<T>>, e: Claim<T>, j: nat)
    requires Valid(v) && j < CLUSTER_SLOTS && Heard(v, cs) <= all && Uncontested(v, all, j) && Winner(v, all, e, j)
    ensures e in Heard(v, cs) ==> ReceiveAll(v, cs).owners[j] == Some(e.sender)
    decreases |cs|
  {
    hide Recorded, OwnerClaimed, Receive, Past, Uncontested, Winner;
    if cs == [] {
      assert Heard(v, cs) == Past(v);
      PastWinner(v, all, e, j);
    } else {
      var n := |cs| - 1;
      HeardNext(v, cs);
      WinnerOwns(v, cs[..n], all, e, j);
      Tracks(v, cs[..n], j);
      ReceiveWinner(v, ReceiveAll(v, cs[..n]), Heard(v, cs[..n]), cs[n], all, e, j);
    }
  }

  lemma PastWinner<T>(v: View<T>, all: set<Claim<T>>, e: Claim<T>, j: nat)
    requires Valid(v) && j < CLUSTER_SLOTS && Winner(v, all, e, j)
    ensures e in Past(v) ==> v.owners[j] == Some(e.sender)
  {
  }

  /** Last failover wins: if the slot is uncontested, the sender of the winning claim owns it, in whatever order and
      however often the claims came. */
  lemma GreatestEpochOwns<T>(v: View<T>, cs: seq<Claim<T>>, j: nat, e: Claim<T>)
    requires Valid(v) && j < CLUSTER_SLOTS && Uncontested(v, Heard(v, cs), j) && Winner(v, Heard(v, cs), e, j)
    ensures ReceiveAll(v, cs).owners[j] == Some(e.sender)
  {
    hide Uncontested, Winner;
    WinnerOwns(v, cs, Heard(v, cs), e, j);
    WinnerHeard(v, Heard(v, cs), e, j);
  }

  lemma UnclaimedIsFree<T>(v: View<T>, cs: seq<Claim<T>>, j: nat)
    requires Valid(v) && j < CLUSTER_SLOTS && forall c <- Heard(v, cs) :: !Live(v, c, j)
    ensures ReceiveAll(v, cs).owners[j] == None
  {
    hide Live;
    Tracks(v, cs, j);
  }

  // ---------------------------------------------------------------------------
  // The order matters
  // ---------------------------------------------------------------------------

  /** The same claims, in any order and any number of times. */
  ghost predicate SameClaims<T>(cs: seq<Claim<T>>, ds: seq<Claim<T>>) {
    (set c <- cs) == set d <- ds
  }

  /** An owner whose recorded epoch no claim on the slot exceeds keeps it. */
  lemma {:induction false} OwnerStays<T>(w: View<T>, cs: seq<Claim<T>>, j: nat)
    requires Valid(w) && j < CLUSTER_SLOTS && w.owners[j].Some?
    requires forall c <- cs :: j in c.slots ==> c.epoch <= w.epochs[w.owners[j].value]
    ensures ReceiveAll(w, cs).owners[j] == w.owners[j]
    ensures ReceiveAll(w, cs).epochs[w.owners[j].value] >= w.epochs[w.owners[j].value]
    decreases |cs|
  {
    if cs != [] {
      var n := |cs| - 1;
      OwnerStays(w, cs[..n], j);
      assert cs[n] in cs;
    }
  }

  lemma {:induction false} ReceiveConcat<T>(v: View<T>, a: seq<Claim<T>>, b: seq<Claim<T>>)
    requires Valid(v)
    ensures ReceiveAll(v, a + b) == ReceiveAll(ReceiveAll(v, a), b)
    decreases |b|
  {
    if b == [] {
      assert a + b == a;
    } else {
      var n := |b| - 1;
      assert (a + b)[..|a| + n] == a + b[..n];
      ReceiveConcat(v, a, b[..n]);
    }
  }

  /** Every claim on the slot is at most the winner's epoch. */
  lemma NoneAbove<T>(v: View<T>, cs: seq<Claim<T>>, e: Claim<T>, j: nat)
    requires Valid(v) && j < CLUSTER_SLOTS && Winner(v, Heard(v, cs), e, j)
    ensures forall c <- cs :: j in c.slots ==> c.epoch <= e.epoch
  {
    forall c <- cs | j in c.slots
      ensures c.epoch <= e.epoch
    {
      assert c in Heard(v, cs);
    }
  }

  /** Every sender's claims come by increasing epoch, as on one connection. */
  ghost predicate InOrder<T>(cs: seq<Claim<T>>) {
    forall i, k :: 0 <= i < k < |cs| && cs[i].sender == cs[k].sender ==> cs[i].epoch <= cs[k].epoch
  }

  /** The same packets, each as often, in an order in which senders can have sent them. */
  ghost predicate Reordered<T>(cs: seq<Claim<T>>, ds: seq<Claim<T>>) {
    multiset(cs) == multiset(ds) && InOrder(ds)
  }

  lemma ReorderedIsSame<T>(cs: seq<Claim<T>>, ds: seq<Claim<T>>)
    requires multiset(cs) == multiset(ds)
    ensures SameClaims(cs, ds)
  {
    SameMembers(cs, ds);
  }

  lemma SameMembers<T>(cs: seq<Claim<T>>, ds: seq<Claim<T>>)
    requires multiset(cs) == multiset(ds)
    ensures (forall c <- cs :: c in ds) && (forall c <- ds :: c in cs)
  {
    assert forall c <- cs :: c in multiset(cs);
    assert forall c <- ds :: c in multiset(ds);
  }

  ghost predicate Sorted<T>(cs: seq<Claim<T>>) {
    forall i, k :: 0 <= i < k < |cs| ==> cs[i].epoch <= cs[k].epoch
  }

  lemma {:induction false} Insert<T>(c: Claim<T>, cs: seq<Claim<T>>) returns (ds: seq<Claim<T>>)
    requires Sorted(cs)
    ensures Sorted(ds) && multiset(ds) == multiset(cs) + multiset{c}
    decreases |cs|
  {
    if cs == [] || c.epoch <= cs[0].epoch {
      ds := [c] + cs;
    } else {
      var rest := Insert(c, cs[1..]);
      assert cs == [cs[0]] + cs[1..];
      forall d <- rest
        ensures cs[0].epoch <= d.epoch
      {
        assert d in multiset(rest);
        assert d in cs[1..] || d == c;
      }
      ds := [cs[0]] + rest;
    }
  }

  lemma {:induction false} Sort<T>(cs: seq<Claim<T>>) returns (ds: seq<Claim<T>>)
    ensures Sorted(ds) && multiset(ds) == multiset(cs)
    decreases |cs|
  {
    if cs == [] {
      ds := [];
    } else {
      assert cs == [cs[0]] + cs[1..];
      var rest := Sort(cs[1..]);
      ds := Insert(cs[0], rest);
    }
  }

  /** The claims of one sender, and those of the others. */
  ghost function Of<T>(cs: seq<Claim<T>>, s: T, mine: bool): (r: seq<Claim<T>>)
    ensures forall c <- r :: c in cs && (c.sender == s) == mine
    ensures forall c <- cs | (c.sender == s) == mine :: c in r
  {
    if cs == [] then [] else (if (cs[0].sender == s) == mine then [cs[0]] else []) + Of(cs[1..], s, mine)
  }

  lemma {:induction false} OfSorted<T>(cs: seq<Claim<T>>, s: T, mine: bool)
    requires Sorted(cs)
    ensures Sorted(Of(cs, s, mine))
    decreases |cs|
  {
    if cs != [] {
      OfSorted(cs[1..], s, mine);
      assert forall c <- cs[1..] :: cs[0].epoch <= c.epoch;
      SortedCons(cs[0], Of(cs[1..], s, mine));
    }
  }

  lemma SortedCons<T>(c: Claim<T>, cs: seq<Claim<T>>)
    requires Sorted(cs) && forall d <- cs :: c.epoch <= d.epoch
    ensures Sorted([c] + cs) && [] + cs == cs
  {
  }

  lemma {:induction false} OfBoth<T>(cs: seq<Claim<T>>, s: T)
    ensures multiset(Of(cs, s, true) + Of(cs, s, false)) == multiset(cs)
    decreases |cs|
  {
    if cs != [] {
      OfBoth(cs[1..], s);
      assert cs == [cs[0]] + cs[1..];
    }
  }

  /** One sender's claims first, each sender's by increasing epoch. */
  lemma SenderFirst<T>(cs: seq<Claim<T>>, s: T) returns (mine: seq<Claim<T>>, others: seq<Claim<T>>)
    ensures Reordered(cs, mine + others)
    ensures forall c <- mine :: c.sender == s
    ensures forall c <- cs | c.sender == s :: c in mine
    ensures forall c <- others :: c in cs
  {
    var ds := Sort(cs);
    mine, others := Of(ds, s, true), Of(ds, s, false);
    OfSorted(ds, s, true);
    OfSorted(ds, s, false);
    OfBoth(ds, s);
    SortedApart(mine, others, s);
    SameMembers(cs, ds);
  }

  lemma SortedApart<T>(mine: seq<Claim<T>>, others: seq<Claim<T>>, s: T)
    requires Sorted(mine) && Sorted(others)
    requires (forall c <- mine :: c.sender == s) && (forall c <- others :: c.sender != s)
    ensures InOrder(mine + others)
  {
    var all := mine + others;
    assert forall i :: 0 <= i < |mine| ==> all[i] == mine[i] && mine[i] in mine;
    assert forall i :: |mine| <= i < |all| ==> all[i] == others[i - |mine|] && others[i - |mine|] in others;
  }

  /** A sender's claims alone move the slot to nobody else, and record the greatest epoch. */
  lemma {:induction false} OwnClaims<T>(v: View<T>, mine: seq<Claim<T>>, s: T, j: nat)
    requires Valid(v) && j < CLUSTER_SLOTS && forall c <- mine :: c.sender == s
    ensures
      var w := ReceiveAll(v, mine);
      && (w.owners[j] == Some(s) || w.owners[j] == v.owners[j])
      && (forall t <- v.epochs :: t in w.epochs && (t != s ==> w.epochs[t] == v.epochs[t]))
      && (s in v.epochs ==> w.epochs[s] >= v.epochs[s])
      && (forall c <- mine :: s in w.epochs && w.epochs[s] >= c.epoch)
    decreases |mine|
  {
    if mine != [] {
      var n := |mine| - 1;
      OwnClaims(v, mine[..n], s, j);
      assert mine == mine[..n] + [mine[n]] && mine[n] in mine;
    }
  }

  /** A live claim among them takes the slot. */
  lemma {:induction false} OwnClaimTakes<T>(v: View<T>, mine: seq<Claim<T>>, c: Claim<T>, j: nat)
    requires Valid(v) && j < CLUSTER_SLOTS && (forall d <- mine :: d.sender == c.sender)
    requires Live(v, c, j) && (c in mine || c in Past(v))
    ensures ReceiveAll(v, mine).owners[j] == Some(c.sender)
    decreases |mine|
  {
    if v.owners[j] == Some(c.sender) {
      OwnClaims(v, mine, c.sender, j);
    } else {
      assert c in mine;
      var n := |mine| - 1;
      assert mine == mine[..n] + [mine[n]];
      OwnClaims(v, mine[..n], c.sender, j);
      if mine[n] != c {
        OwnClaimTakes(v, mine[..n], c, j);
      }
    }
  }

  /** Whoever has a live claim and was heard with an epoch that reaches the winner's can end up with the slot: if the
      sender's claims come first, the winner comes too late. */
  lemma CanOwn<T>(v: View<T>, cs: seq<Claim<T>>, e: Claim<T>, c: Claim<T>, d: Claim<T>, j: nat)
      returns (ds: seq<Claim<T>>)
    requires Valid(v) && j < CLUSTER_SLOTS && Winner(v, Heard(v, cs), e, j)
    requires c in Heard(v, cs) && Live(v, c, j) && d in Heard(v, cs) && c.sender == d.sender && d.epoch >= e.epoch
    ensures Reordered(cs, ds) && ReceiveAll(v, ds).owners[j] == Some(c.sender)
  {
    NoneAbove(v, cs, e, j);
    var s := c.sender;
    var mine, others := SenderFirst(cs, s);
    ds := mine + others;
    hide Live, Reordered;
    OwnClaims(v, mine, s, j);
    OwnClaimTakes(v, mine, c, j);
    var w := ReceiveAll(v, mine);
    assert w.epochs[s] >= d.epoch by {
      if d in cs { assert d in mine; }
    }
    OwnerStays(w, others, j);
    ReceiveConcat(v, mine, others);
  }

  /** Contested slots diverge: two nodes that start alike and hear the same packets, those of every sender by increasing
      epoch, end with different owners. */
  lemma ContestedSlotsDiverge<T>(v: View<T>, cs: seq<Claim<T>>, j: nat) returns (ds: seq<Claim<T>>, ds': seq<Claim<T>>)
    requires Valid(v) && j < CLUSTER_SLOTS && !Uncontested(v, Heard(v, cs), j)
    ensures Reordered(cs, ds) && Reordered(cs, ds') && ReceiveAll(v, ds).owners[j] != ReceiveAll(v, ds').owners[j]
  {
    var heard := Heard(v, cs);
    var e, c, d :| e in heard && c in heard && d in heard && Winner(v, heard, e, j) && Live(v, c, j)
                   && c.sender == d.sender && c.sender != e.sender && d.epoch >= e.epoch;
    hide Reordered, Live, ReceiveAll;
    ds := CanOwn(v, cs, e, e, e, j);
    ds' := CanOwn(v, cs, e, c, d, j);
  }

  // ---------------------------------------------------------------------------
  // Exactly when it does
  // ---------------------------------------------------------------------------

  /** If a slot has live claims, one of them wins. */
  lemma {:induction false} SomebodyWins<T>(v: View<T>, heard: set<Claim<T>>, j: nat) returns (e: Claim<T>)
    requires Valid(v) && j < CLUSTER_SLOTS && exists c <- heard :: Live(v, c, j)
    ensures Winner(v, heard, e, j)
    decreases heard
  {
    hide Live;
    e :| e in heard && Live(v, e, j);
    var rest := heard - {e};
    if exists c <- rest :: Live(v, c, j) {
      var f := SomebodyWins(v, rest, j);
      if f.epoch > e.epoch { e := f; }
    }
  }

  /** The owner of a slot is the same for every order of the claims if and only if the slot is uncontested; and
      already if it is the same for the orders in which every sender's claims come by increasing epoch. */
  lemma OrderIndependentIff<T(!new)>(v: View<T>, cs: seq<Claim<T>>, j: nat)
    requires Valid(v) && j < CLUSTER_SLOTS
    ensures Uncontested(v, Heard(v, cs), j) <==>
            forall ds :: SameClaims(cs, ds) ==> ReceiveAll(v, ds).owners[j] == ReceiveAll(v, cs).owners[j]
    ensures Uncontested(v, Heard(v, cs), j) <==>
            forall ds, ds' :: Reordered(cs, ds) && Reordered(cs, ds') ==>
              ReceiveAll(v, ds).owners[j] == ReceiveAll(v, ds').owners[j]
  {
    hide Uncontested, Winner, Live, ReceiveAll, SameClaims;
    if Uncontested(v, Heard(v, cs), j) {
      forall ds | SameClaims(cs, ds)
        ensures ReceiveAll(v, ds).owners[j] == ReceiveAll(v, cs).owners[j]
      {
        SameOwner(v, cs, v, ds, j);
      }
      forall ds | Reordered(cs, ds)
        ensures SameClaims(cs, ds)
      {
        ReorderedIsSame(cs, ds);
      }
    } else {
      var ds, ds' := ContestedSlotsDiverge(v, cs, j);
      ReorderedIsSame(cs, ds);
      ReorderedIsSame(cs, ds');
    }
  }

  /** Two nodes that heard the same, from the same start. */
  lemma SameOwner<T>(v: View<T>, cs: seq<Claim<T>>, w: View<T>, ds: seq<Claim<T>>, j: nat)
    requires Valid(v) && w == v && j < CLUSTER_SLOTS && SameClaims(cs, ds) && Uncontested(v, Heard(v, cs), j)
    ensures ReceiveAll(w, ds).owners[j] == ReceiveAll(v, cs).owners[j]
  {
    hide Uncontested, Winner, Live, ReceiveAll, Past;
    var heard := Heard(v, cs);
    assert Heard(w, ds) == heard;
    if exists c <- heard :: Live(v, c, j) {
      var e := SomebodyWins(v, heard, j);
      GreatestEpochOwns(v, cs, j, e);
      GreatestEpochOwns(w, ds, j, e);
    } else {
      UnclaimedIsFree(v, cs, j);
      UnclaimedIsFree(w, ds, j);
    }
  }

  /** Senders never drop the slot, and no two of them claim it under one epoch. */
  ghost predicate Kept<T>(heard: set<Claim<T>>, j: nat) {
    && (forall c <- heard, d <- heard :: c.sender == d.sender && j in c.slots && d.epoch >= c.epoch ==> j in d.slots)
    && (forall c <- heard, d <- heard :: j in c.slots && j in d.slots && c.epoch == d.epoch ==> c.sender == d.sender)
  }

  lemma WinnerIsGreatest<T>(v: View<T>, heard: set<Claim<T>>, e: Claim<T>, c: Claim<T>, j: nat)
    requires Valid(v) && j < CLUSTER_SLOTS && Past(v) <= heard && Winner(v, heard, e, j) && c in heard && j in c.slots
    ensures c.epoch <= e.epoch
  {
    if v.owners[j].Some? {
      assert Remembered(v, v.owners[j].value) in Past(v);
    }
  }

  lemma KeptIsUncontested<T>(v: View<T>, heard: set<Claim<T>>, j: nat)
    requires Valid(v) && j < CLUSTER_SLOTS && Past(v) <= heard && Kept(heard, j)
    ensures Uncontested(v, heard, j)
  {
    hide Past;
    forall e <- heard, c <- heard, d <- heard |
      Winner(v, heard, e, j) && Live(v, c, j) && c.sender == d.sender && c.sender != e.sender
      ensures d.epoch < e.epoch
    {
      WinnerIsGreatest(v, heard, e, c, j);
      if d.epoch >= e.epoch {
        WinnerIsGreatest(v, heard, e, d, j);
      }
    }
  }

  /** Convergence: two nodes that heard the same, the tables they started from included, agree on every slot
      that its claimants keep. */
  lemma Converges<T>(v: View<T>, cs: seq<Claim<T>>, w: View<T>, ds: seq<Claim<T>>, j: nat)
    requires Valid(v) && Valid(w) && j < CLUSTER_SLOTS && Heard(v, cs) == Heard(w, ds) && Kept(Heard(v, cs), j)
    ensures ReceiveAll(v, cs).owners[j] == ReceiveAll(w, ds).owners[j]
  {
    hide Uncontested, Winner, ReceiveAll, Past;
    var heard := Heard(v, cs);
    KeptIsUncontested(v, heard, j);
    KeptIsUncontested(w, heard, j);
    ClaimedIsLive(v, heard, j);
    ClaimedIsLive(w, heard, j);
    if exists c <- heard :: Live(v, c, j) {
      LiveIsClaimed(v, heard, j);
      var e := SomebodyWins(v, heard, j);
      var f := SomebodyWins(w, heard, j);
      WinnerHeard(v, heard, e, j);
      WinnerHeard(w, heard, f, j);
      WinnerIsGreatest(v, heard, e, f, j);
      WinnerIsGreatest(w, heard, f, e, j);
      GreatestEpochOwns(v, cs, j, e);
      GreatestEpochOwns(w, ds, j, f);
    } else {
      if exists c <- heard :: Live(w, c, j) { LiveIsClaimed(w, heard, j); }
      UnclaimedIsFree(v, cs, j);
      UnclaimedIsFree(w, ds, j);
    }
  }

  lemma LiveIsClaimed<T>(v: View<T>, heard: set<Claim<T>>, j: nat)
    requires Valid(v) && j < CLUSTER_SLOTS && exists c <- heard :: Live(v, c, j)
    ensures exists c <- heard :: j in c.slots
  {
    var c :| c in heard && Live(v, c, j);
    assert j in c.slots;
  }

  lemma ClaimedIsLive<T>(v: View<T>, heard: set<Claim<T>>, j: nat)
    requires Valid(v) && j < CLUSTER_SLOTS && Past(v) <= heard
    ensures (exists c <- heard :: j in c.slots) ==> exists c <- heard :: Live(v, c, j)
  {
    if v.owners[j].Some? {
      assert Remembered(v, v.owners[j].value) in heard;
    } else if exists c <- heard :: j in c.slots {
      var c :| c in heard && j in c.slots;
      assert Live(v, c, j);
    }
  }

  // ---------------------------------------------------------------------------
  // An ordinary run in which it does
  // ---------------------------------------------------------------------------

  ghost function EmptyView<T>(): (v: View<T>)
    ensures Valid(v)
  {
    View(seq(CLUSTER_SLOTS, _ => None), map[])
  }

  /** Master 1 has slot 0 at epoch 1, master 2 imports it at epoch 2, and master 1 then takes epoch 3 for another slot.
      A node that hears of epoch 3 before epoch 2 leaves slot 0 with master 1, which does not claim it any more. */
  lemma DroppedSlotDiverges()
    ensures
      var v := EmptyView<nat>();
      var a, b, a' := Claim(1, 1, {0}), Claim(2, 2, {0}), Claim(1, 3, {1});
      && ReceiveAll(v, [a, b, a']).owners[0] == Some(2)
      && ReceiveAll(v, [a, a', b]).owners[0] == Some(1)
  {
    var v := EmptyView<nat>();
    var a, b, a' := Claim(1, 1, {0}), Claim(2, 2, {0}), Claim(1, 3, {1});
    var w := Receive(v, a);
    ThreeClaims(v, a, b, a');
    ThreeClaims(v, a, a', b);
    assert w.owners[0] == Some(1) && w.epochs == map[1 := 1];
    assert Receive(w, b).owners[0] == Some(2);
    assert Receive(w, a').owners[0] == Some(1) && Receive(w, a').epochs[1] == 3;
  }

  lemma ReceiveOne<T>(v: View<T>, e: Claim<T>)
    requires Valid(v)
    ensures ReceiveAll(v, [e]) == Receive(v, e)
  {
    assert ReceiveAll(v, [e][..0]) == v;
  }

  lemma ThreeClaims<T>(v: View<T>, a: Claim<T>, b: Claim<T>, c: Claim<T>)
    requires Valid(v)
    ensures ReceiveAll(v, [a, b, c]) == Receive(Receive(Receive(v, a), b), c)
  {
    hide Receive;
    assert [a, b, c] == [a] + ([b] + [c]);
    ReceiveConcat(v, [a], [b] + [c]);
    ReceiveConcat(Receive(v, a), [b], [c]);
    ReceiveOne(v, a);
    ReceiveOne(Receive(v, a), b);
    ReceiveOne(Receive(Receive(v, a), b), c);
  }
}
