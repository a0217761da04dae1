/** Whole runs of the serving loop, as a chain of keys served one after the other. */
module BlockedStages {
  import opened Prelude
  import opened BlockedIndex
  import opened BlockedKeyspace
  import opened BlockedServing
  import opened BlockedSteps
  import opened BlockedStreams
  import opened BlockedTurns

  datatype Moment = Moment(x: Index, db: map<Key, Value>, replies: seq<Reply>)

  /** One ready key, before and after it was served. */
  datatype Stage = Stage(key: Key, before: Moment, after: Moment)

  /** The first i clients of a list key had their turns, and an empty list is deleted. */
  ghost predicate ListServed(a: Moment, b: Moment, k: Key, i: nat) {
    i <= |Waiting(a.x, k)| &&
    var r := Turns(Served(a.db, a.replies), k, a.x, Chosen(a.x, Waiting(a.x, k)[..i], BList));
    && k in r.db && r.db[k].ListVal? && b.replies == r.replies
    && b.db == (if r.db[k].items == [] then r.db - {k} else r.db)
    && (i == |Waiting(a.x, k)| || k !in b.db)
  }

  /** The first i clients of a sorted set key took a member each. */
  ghost predicate ZSetServed(a: Moment, b: Moment, k: Key, i: nat)
    requires k in a.db && a.db[k].ZSetVal?
  {
    i <= |Waiting(a.x, k)| &&
    var chosen := Chosen(a.x, Waiting(a.x, k)[..i], BZSet);
    && |chosen| <= a.db[k].members && b.db == Remaining(a.db, k, a.db[k].members - |chosen|)
    && Receivers(b.replies) == Receivers(a.replies) + chosen
    && (i == |Waiting(a.x, k)| || k !in b.db)
  }

  /** Some clients of a stream key were answered, in order; the others wait on. */
  ghost predicate StreamServed(a: Moment, b: Moment, k: Key, served: seq<ClientId>)
    requires k in a.db
  {
    && b.db == a.db && Receivers(b.replies) == Receivers(a.replies) + served
    && Splits(Waiting(a.x, k), Waiting(b.x, k), served)
    && forall c <- served :: Awaited(a.x, k, c, a.db[k])
  }

  /** A key that was served as its type asks. */
  ghost predicate KeyServed(k: Key, a: Moment, b: Moment) {
    if k in a.db && a.db[k].ListVal? then exists i: nat :: ListServed(a, b, k, i)
    else if k in a.db && a.db[k].ZSetVal? && a.db[k].members > 0 then exists i: nat :: ZSetServed(a, b, k, i)
    else if k in a.db && a.db[k].StreamVal? then exists served :: StreamServed(a, b, k, served)
    else b.db == a.db && b.replies == a.replies
  }

  /** The same but for the queue of ready keys. */
  ghost predicate Linked(a: Moment, b: Moment) {
    a.db == b.db && a.replies == b.replies && a.x.clients == b.x.clients && a.x.blocking == b.x.blocking
  }

  function Latest(start: Moment, stages: seq<Stage>): Moment {
    if stages == [] then start else stages[|stages| - 1].after
  }

  /** Every key was served from where the one before it left off, and the last one led to the end. */
  ghost predicate Chain(start: Moment, stages: seq<Stage>, end: Moment) {
    && (forall i :: 0 <= i < |stages| ==>
          && Linked(Latest(start, stages[..i]), stages[i].before)
          && KeyServed(stages[i].key, stages[i].before, stages[i].after))
    && Linked(Latest(start, stages), end)
  }

  function Keys(stages: seq<Stage>): seq<Key> {
    seq(|stages|, i requires 0 <= i < |stages| => stages[i].key)
  }

  lemma ChainStart(start: Moment)
    ensures Chain(start, [], start) && Keys([]) == []
  {
  }

  lemma ChainMoves(start: Moment, stages: seq<Stage>, end: Moment, end': Moment)
    requires Chain(start, stages, end) && Linked(end, end')
    ensures Chain(start, stages, end')
  {
    hide KeyServed;
  }

  lemma ChainNext(start: Moment, stages: seq<Stage>, k: Key, before: Moment, after: Moment)
    requires Chain(start, stages, before) && KeyServed(k, before, after)
    ensures Chain(start, stages + [Stage(k, before, after)], after)
    ensures Keys(stages + [Stage(k, before, after)]) == Keys(stages) + [k]
  {
    hide KeyServed;
    var all := stages + [Stage(k, before, after)];
    forall i | 0 <= i < |all|
      ensures Linked(Latest(start, all[..i]), all[i].before) && KeyServed(all[i].key, all[i].before, all[i].after)
    {
      assert all[..i] == stages[..i];
      if i == |stages| {
        assert stages[..i] == stages;
      }
    }
  }

  /** The keys still to come after those served. */
  lemma KeysNext(ready: seq<Key>, done: seq<Key>, l: seq<Key>)
    requires l != [] && ready <= done + l
    ensures ready <= done + [l[0]] + l[1..]
  {
    assert done + [l[0]] + l[1..] == done + l;
  }
}
