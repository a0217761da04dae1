/**
 The thread pool: a queue under a mutex and a semaphore that counts the requests. Any number of threads append and any
 number work; a step is one statement of one thread, and steps interleave in every way.
 */
module ThreadPool {
  import opened Prelude
  import opened Threads

  type Tid = nat

  /** A pointer to a request. */
  type Request = Option<nat>

  datatype Pc =
    // append
    | Idle
    | Called(request: Request)         // before lock()
    | Entered(request: Request)        // lock held, before the size test
    | Room(request: Request)           // lock held, the queue is not full
    | Full                             // lock held, the queue is full
    | Pushed                           // lock held, request queued
    | Unlocked                         // lock released, before post()
    // run
    | Top                              // before the test of stop
    | Waiting                          // before or in wait()
    | Woken                            // wait() returned, before lock()
    | Holding                          // lock held, before the test for emptiness
    | FoundEmpty                       // lock held, the queue was empty
    | Filled                           // lock held, the queue was not empty, before front()
    | Front(index: nat, request: Request)    // lock held, this request read, before pop_front()
    | Popped(index: nat, request: Request)   // lock held, request taken
    | Working(index: nat, request: Request)  // lock released, before process()
    | Exited
    | Crashed                          // front() or pop_front() of an empty queue

  datatype State = State(
    maxRequests: nat,
    queue: seq<Request>,
    sem: nat,
    owner: Option<Tid>,                // of the mutex
    stop: bool,
    threads: map<Tid, Pc>,
    accepted: seq<Request>,            // everything ever queued, in order
    taken: nat,                        // how many of them were taken
    done: set<nat>)                    // those processed, by position

  datatype Action =
    | Call(t: Tid, request: Request)
    | Step(t: Tid)
    | Stop

  function Goto(s: State, t: Tid, p: Pc): State {
    s.(threads := s.threads[t := p])
  }

  /** The next statement of a thread; a thread that has to wait stays where it is. */
  function StepOf(s: State, t: Tid): State
    requires t in s.threads
  {
    match s.threads[t]
    case Idle => s
    case Called(r) => if s.owner == None then Goto(s.(owner := Some(t)), t, Entered(r)) else s
    case Entered(r) => Goto(s, t, if |s.queue| > s.maxRequests then Full else Room(r))
    case Room(r) => Goto(s.(queue := s.queue + [r], accepted := s.accepted + [r]), t, Pushed)
    case Full => Goto(s.(owner := None), t, Idle)
    case Pushed => Goto(s.(owner := None), t, Unlocked)
    case Unlocked => Goto(s.(sem := s.sem + 1), t, Idle)
    case Top => Goto(s, t, if s.stop then Exited else Waiting)
    case Waiting => if s.sem > 0 then Goto(s.(sem := s.sem - 1), t, Woken) else s
    case Woken => if s.owner == None then Goto(s.(owner := Some(t)), t, Holding) else s
    case Holding =>
      Goto(s, t, if s.queue == [] then FoundEmpty else Filled)
    case FoundEmpty => Goto(s.(owner := None), t, Top)
    case Filled => Goto(s, t, if s.queue == [] then Crashed else Front(s.taken, s.queue[0]))
    case Front(i, r) =>
      if s.queue == [] then Goto(s, t, Crashed)
      else Goto(s.(queue := s.queue[1..], taken := s.taken + 1), t, Popped(i, r))
    case Popped(i, r) => Goto(s.(owner := None), t, Working(i, r))
    case Working(i, _) => Goto(s.(done := s.done + {i}), t, Top)
    case Exited => s
    case Crashed => s
  }

  function Apply(s: State, a: Action): State {
    match a
    case Call(t, r) => if t in s.threads && s.threads[t] == Idle then Goto(s, t, Called(r)) else s
    case Step(t) => if t in s.threads then StepOf(s, t) else s
    case Stop => s.(stop := true)
  }

  function Run(s: State, actions: seq<Action>): State {
    if actions == [] then s else Apply(Run(s, actions[..|actions| - 1]), actions[|actions| - 1])
  }

  predicate Initial(s: State) {
    && s.queue == [] && s.sem == 0 && s.owner == None && s.accepted == [] && s.taken == 0 && s.done == {}
    && forall t <- s.threads :: s.threads[t] == Idle || s.threads[t] == Top
  }

  // ---------------------------------------------------------------------------
  // The invariant
  // ---------------------------------------------------------------------------

  predicate Holds(p: Pc) {
    || p.Entered? || p.Room? || p.Full? || p.Pushed?
    || p.Holding? || p.FoundEmpty? || p.Filled? || p.Front? || p.Popped?
  }

  /** Workers between wait() and taking a request. */
  predicate Committed(p: Pc) {
    p.Woken? || p.Holding? || p.Filled? || p.Front?
  }

  /** Appenders between queueing and post(). */
  predicate Unposted(p: Pc) {
    p.Pushed? || p.Unlocked?
  }

  predicate HasRequest(p: Pc) {
    p.Popped? || p.Working?
  }

  ghost predicate LockOk(s: State) {
    && (s.owner.Some? ==> s.owner.value in s.threads)
    && forall t <- s.threads :: Holds(s.threads[t]) <==> s.owner == Some(t)
  }

  ghost predicate CountOk(s: State) {
    |s.queue| == s.sem + |At(s.threads, Committed)| + |At(s.threads, Unposted)|
  }

  ghost predicate SizeOk(s: State) {
    && |s.queue| <= s.maxRequests + 1
    && forall t <- s.threads :: s.threads[t].Room? ==> |s.queue| <= s.maxRequests
  }

  /** Requests leave in the order they came. */
  ghost predicate OrderOk(s: State) {
    s.taken <= |s.accepted| && s.queue == s.accepted[s.taken..]
  }

  /** What a worker saw of the queue still holds when it acts on it. */
  ghost predicate FrontOk(s: State) {
    forall t <- s.threads :: SawFront(s, s.threads[t])
  }

  predicate SawFront(s: State, p: Pc) {
    && (p.Filled? || p.Front? ==> s.queue != [])
    && (p.Front? ==> p.index == s.taken && p.request == s.queue[0])
  }

  /** Every request taken is in one worker's hands, or was processed. */
  ghost predicate HandsOk(s: State) {
    && (forall i <- s.done :: i < s.taken)
    && (forall t <- s.threads :: HasRequest(s.threads[t]) ==> Carries(s, s.threads[t].index, s.threads[t].request))
    && (forall t <- s.threads, u <- s.threads ::
          t != u && HasRequest(s.threads[t]) && HasRequest(s.threads[u]) ==> s.threads[t].index != s.threads[u].index)
    && (forall i: nat :: i < s.taken && i !in s.done ==> InHands(s, i))
  }

  /** The request of a position that was taken and is not processed. */
  predicate Carries(s: State, i: nat, r: Request) {
    i < s.taken && i !in s.done && i < |s.accepted| && s.accepted[i] == r
  }

  ghost predicate InHands(s: State, i: nat) {
    exists t <- s.threads :: HasRequest(s.threads[t]) && s.threads[t].index == i
  }

  ghost predicate NeverEmpty(s: State) {
    forall t <- s.threads :: !s.threads[t].FoundEmpty? && !s.threads[t].Crashed?
  }

  ghost predicate Inv(s: State) {
    LockOk(s) && CountOk(s) && SizeOk(s) && OrderOk(s) && FrontOk(s) && HandsOk(s) && NeverEmpty(s)
  }

  lemma InitialInv(s: State)
    requires Initial(s)
    ensures Inv(s)
  {
    assert At(s.threads, Committed) == {};
    assert At(s.threads, Unposted) == {};
  }

  /** What the thread found when it looked at the queue is still so. */
  predicate Sound(s: State, t: Tid)
    requires t in s.threads
  {
    SawFront(s, s.threads[t]) && !s.threads[t].Crashed?
  }

  lemma StepKeepsLock(s: State, t: Tid)
    requires LockOk(s) && t in s.threads && Sound(s, t)
    ensures LockOk(StepOf(s, t))
  {
  }

  /** Only the thread that holds the lock changes the queue. */
  lemma StepKeepsFront(s: State, t: Tid)
    requires LockOk(s) && FrontOk(s) && t in s.threads
    ensures FrontOk(StepOf(s, t))
  {
    var r := StepOf(s, t);
    forall u <- r.threads
      ensures SawFront(r, r.threads[u])
    {
      assert SawFront(s, s.threads[u]);
      if u != t && Holds(s.threads[u]) {
        assert !Holds(s.threads[t]);
      }
    }
  }

  lemma StepKeepsCount(s: State, t: Tid)
    requires CountOk(s) && NeverEmpty(s) && t in s.threads && Sound(s, t)
    ensures CountOk(StepOf(s, t))
  {
    hide At;
    var p := StepOf(s, t).threads[t];
    CountMove(s.threads, Committed, t, p);
    CountMove(s.threads, Unposted, t, p);
    assert StepOf(s, t).threads == s.threads[t := p];
    if s.threads[t].Holding? {
      CountSome(s.threads, Committed, t);
    }
  }

  /** A committed worker finds the queue filled. */
  lemma StepNeverFindsEmpty(s: State, t: Tid)
    requires CountOk(s) && NeverEmpty(s) && t in s.threads && Sound(s, t)
    ensures NeverEmpty(StepOf(s, t))
  {
    if s.threads[t].Holding? {
      CountSome(s.threads, Committed, t);
    }
  }

  lemma StepKeepsSize(s: State, t: Tid)
    requires LockOk(s) && SizeOk(s) && t in s.threads
    ensures SizeOk(StepOf(s, t))
  {
  }

  lemma StepKeepsOrder(s: State, t: Tid)
    requires OrderOk(s) && t in s.threads
    ensures OrderOk(StepOf(s, t))
  {
    var p, r := s.threads[t], StepOf(s, t);
    if p.Room? {
      assert r.accepted == s.accepted + [p.request];
      assert (s.accepted + [p.request])[s.taken..] == s.accepted[s.taken..] + [p.request];
    } else if p.Front? {
      assert s.accepted[s.taken..] != [] ==> s.accepted[s.taken..][1..] == s.accepted[s.taken + 1..];
    } else {
      assert r.queue == s.queue && r.accepted == s.accepted && r.taken == s.taken;
    }
  }

  /** Steps that neither take nor finish a request. */
  predicate Same(s: State, r: State, t: Tid) {
    && t in s.threads && r.taken == s.taken && r.done == s.done && r.threads == s.threads[t := PcOf(r, t)]
    && s.accepted <= r.accepted && HasRequest(PcOf(r, t)) == HasRequest(s.threads[t])
    && (HasRequest(s.threads[t]) ==>
          PcOf(r, t).index == s.threads[t].index && PcOf(r, t).request == s.threads[t].request)
  }

  function PcOf(s: State, t: Tid): Pc {
    if t in s.threads then s.threads[t] else Idle
  }

  lemma SameKeepsHands(s: State, r: State, t: Tid)
    requires HandsOk(s) && Same(s, r, t)
    ensures HandsOk(r)
  {
    forall i: nat | i < r.taken && i !in r.done
      ensures InHands(r, i)
    {
      assert InHands(s, i);
      var u :| u in s.threads && HasRequest(s.threads[u]) && s.threads[u].index == i;
      assert u in r.threads && HasRequest(r.threads[u]) && r.threads[u].index == i;
    }
  }

  lemma TakeKeepsHands(s: State, t: Tid)
    requires HandsOk(s) && OrderOk(s) && t in s.threads && s.threads[t].Front? && Sound(s, t)
    ensures HandsOk(StepOf(s, t))
  {
    var r := StepOf(s, t);
    assert HasRequest(r.threads[t]) && r.threads[t].index == s.taken;
    forall i: nat | i < r.taken && i !in r.done
      ensures InHands(r, i)
    {
      if i < s.taken {
        assert InHands(s, i);
        var u :| u in s.threads && HasRequest(s.threads[u]) && s.threads[u].index == i;
        assert u in r.threads && HasRequest(r.threads[u]) && r.threads[u].index == i;
      }
    }
  }

  lemma FinishKeepsHands(s: State, t: Tid)
    requires HandsOk(s) && t in s.threads && s.threads[t].Working?
    ensures HandsOk(StepOf(s, t))
  {
    var r := StepOf(s, t);
    forall i: nat | i < r.taken && i !in r.done
      ensures InHands(r, i)
    {
      assert InHands(s, i);
      var u :| u in s.threads && HasRequest(s.threads[u]) && s.threads[u].index == i;
      assert u in r.threads && HasRequest(r.threads[u]) && r.threads[u].index == i;
    }
  }

  lemma StepKeepsHands(s: State, t: Tid)
    requires HandsOk(s) && OrderOk(s) && t in s.threads && Sound(s, t)
    ensures HandsOk(StepOf(s, t))
  {
    hide HandsOk, OrderOk;
    if s.threads[t].Front? {
      TakeKeepsHands(s, t);
    } else if s.threads[t].Working? {
      FinishKeepsHands(s, t);
    } else {
      StepSame(s, t);
      SameKeepsHands(s, StepOf(s, t), t);
    }
  }

  lemma StepSame(s: State, t: Tid)
    requires t in s.threads && !s.threads[t].Working? && !s.threads[t].Front?
    ensures Same(s, StepOf(s, t), t)
  {
  }

  lemma CallKeepsInv(s: State, t: Tid, r: Request)
    requires Inv(s) && t in s.threads && s.threads[t] == Idle
    ensures Inv(Goto(s, t, Called(r)))
  {
    var s' := Goto(s, t, Called(r));
    CountMove(s.threads, Committed, t, Called(r));
    CountMove(s.threads, Unposted, t, Called(r));
    forall i: nat | i < s.taken && i !in s.done
      ensures InHands(s', i)
    {
      assert InHands(s, i);
      var u :| u in s.threads && HasRequest(s.threads[u]) && s.threads[u].index == i;
      assert u in s'.threads && HasRequest(s'.threads[u]) && s'.threads[u].index == i;
    }
  }

  lemma StopKeepsInv(s: State)
    requires Inv(s)
    ensures Inv(s.(stop := true))
  {
    var s' := s.(stop := true);
    forall i: nat | i < s.taken && i !in s.done
      ensures InHands(s', i)
    {
      assert InHands(s, i);
    }
  }

  lemma ApplyKeepsInv(s: State, a: Action)
    requires Inv(s)
    ensures Inv(Apply(s, a))
  {
    hide LockOk, CountOk, SizeOk, OrderOk, HandsOk, StepOf;
    match a
    case Call(t, r) =>
      if t in s.threads && s.threads[t] == Idle {
        CallKeepsInv(s, t, r);
      }
    case Step(t) =>
      if t in s.threads {
        StepKeepsLock(s, t);
        StepKeepsFront(s, t);
        StepKeepsCount(s, t);
        StepNeverFindsEmpty(s, t);
        StepKeepsSize(s, t);
        StepKeepsOrder(s, t);
        StepKeepsHands(s, t);
      }
    case Stop => StopKeepsInv(s);
  }

  lemma {:induction false} RunKeepsInv(s: State, actions: seq<Action>)
    requires Initial(s)
    ensures Inv(Run(s, actions))
    decreases |actions|
  {
    if actions == [] {
      InitialInv(s);
    } else {
      RunKeepsInv(s, actions[..|actions| - 1]);
      ApplyKeepsInv(Run(s, actions[..|actions| - 1]), actions[|actions| - 1]);
    }
  }

  // ---------------------------------------------------------------------------
  // What every interleaving guarantees
  // ---------------------------------------------------------------------------

  /** The empty branch of run is never taken, nothing is taken from an empty queue, two threads never hold the mutex,
      and the queue stays bounded. */
  lemma PoolIsSafe(s: State, actions: seq<Action>)
    requires Initial(s)
    ensures
      var r := Run(s, actions);
      && (forall t <- r.threads :: r.threads[t] != FoundEmpty && r.threads[t] != Crashed)
      && (forall t <- r.threads, u <- r.threads :: Holds(r.threads[t]) && Holds(r.threads[u]) ==> t == u)
      && |r.queue| <= r.maxRequests + 1
  {
    RunKeepsInv(s, actions);
  }

  /** First in, first out, each once: what was taken is a prefix of what was accepted, every worker has the request of
      the position it read, and no position is in two hands. */
  lemma PoolIsFifo(s: State, actions: seq<Action>, t: Tid, u: Tid)
    requires Initial(s)
    ensures
      var r := Run(s, actions);
      && r.taken <= |r.accepted| && r.queue == r.accepted[r.taken..]
      && (t in r.threads && HasRequest(r.threads[t]) ==> Carries(r, r.threads[t].index, r.threads[t].request))
      && (t in r.threads && u in r.threads && t != u && HasRequest(r.threads[t]) && HasRequest(r.threads[u]) ==>
            r.threads[t].index != r.threads[u].index)
  {
    RunKeepsInv(s, actions);
  }

  // ---------------------------------------------------------------------------
  // What becomes of a request
  // ---------------------------------------------------------------------------

  /** Since the thread held the lock before the size test in s0, it has not left it, and nobody changed the queue. */
  ghost predicate InCall(s0: State, s: State, t: Tid, q: Request) {
    t in s.threads && s.owner == Some(t) && s.accepted == s0.accepted && s.queue == s0.queue &&
    match s.threads[t]
    case Entered(r) => r == q
    case Room(r) => r == q && |s0.queue| <= s0.maxRequests
    case Full => |s0.queue| > s0.maxRequests
    case _ => false
  }

  /** The request was the next one accepted. */
  ghost predicate Accepted(s0: State, s: State, q: Request) {
    s0.accepted + [q] <= s.accepted
  }

  lemma CallGoesOn(s0: State, s: State, t: Tid, q: Request, a: Action)
    requires LockOk(s) && InCall(s0, s, t, q) && s.maxRequests == s0.maxRequests
    ensures
      || InCall(s0, Apply(s, a), t, q)
      || (a == Step(t) && if |s0.queue| <= s0.maxRequests then Accepted(s0, Apply(s, a), q) && s.threads[t] == Room(q)
                          else Apply(s, a).threads[t] == Idle && Apply(s, a).accepted == s0.accepted)
  {
    if a.Step? && a.t in s.threads && a.t != t {
      assert !Holds(s.threads[a.t]);
    }
  }

  lemma AcceptedGrows(s: State, a: Action)
    ensures s.accepted <= Apply(s, a).accepted && Apply(s, a).maxRequests == s.maxRequests
  {
  }

  /** A request that finds at most maxRequests queued is accepted, whatever the other threads do: once its thread has
      left the lock, it is the next one that was accepted. */
  lemma {:induction false} RequestIsAccepted(s0: State, actions: seq<Action>, t: Tid, q: Request)
    requires Inv(s0) && t in s0.threads && s0.threads[t] == Entered(q)
    ensures
      var s := Run(s0, actions);
      && Inv(s) && s.maxRequests == s0.maxRequests
      && (InCall(s0, s, t, q) || (|s0.queue| <= s0.maxRequests ==> Accepted(s0, s, q)))
    decreases |actions|
  {
    hide Inv, Accepted;
    if actions == [] {
      HolderIsIn(s0, t, q);
    } else {
      var n := |actions| - 1;
      var s := Run(s0, actions[..n]);
      RequestIsAccepted(s0, actions[..n], t, q);
      ApplyKeepsInv(s, actions[n]);
      AcceptedGrows(s, actions[n]);
      hide Apply;
      if InCall(s0, s, t, q) {
        InvLock(s);
        CallGoesOn(s0, s, t, q, actions[n]);
      } else if Accepted(s0, s, q) {
        StillAccepted(s0, s, Apply(s, actions[n]), q);
      }
    }
  }

  lemma StillAccepted(s0: State, s: State, s': State, q: Request)
    requires Accepted(s0, s, q) && s.accepted <= s'.accepted
    ensures Accepted(s0, s', q)
  {
  }

  lemma InvLock(s: State)
    requires Inv(s)
    ensures LockOk(s)
  {
  }

  lemma HolderIsIn(s: State, t: Tid, q: Request)
    requires Inv(s) && t in s.threads && s.threads[t] == Entered(q)
    ensures InCall(s, s, t, q)
  {
    hide CountOk, SizeOk, OrderOk, FrontOk, HandsOk, NeverEmpty;
  }

  /** A worker ends only after the pool was told to stop. */
  lemma {:induction false} ExitsOnlyAfterStop(s: State, actions: seq<Action>, t: Tid)
    requires Initial(s) && t in Run(s, actions).threads && Run(s, actions).threads[t] == Exited
    ensures Run(s, actions).stop
    decreases |actions|
  {
    if actions != [] {
      var n := |actions| - 1;
      var r := Run(s, actions[..n]);
      if t in r.threads && r.threads[t] == Exited {
        ExitsOnlyAfterStop(s, actions[..n], t);
      }
    }
  }

  /** So many steps of one thread. */
  function Steps(s: State, t: Tid, n: nat): State {
    if n == 0 then s else Apply(Steps(s, t, n - 1), Step(t))
  }

  /** What a worker that has been woken does next, and after it took a request. */
  lemma WorkerStep(s: State, t: Tid, p: Pc)
    requires t in s.threads
    ensures
      var r := Apply(Goto(s, t, p), Step(t));
      && (p == Waiting && s.sem > 0 ==> r == Goto(s.(sem := s.sem - 1), t, Woken))
      && (p == Woken && s.owner == None ==> r == Goto(s.(owner := Some(t)), t, Holding))
      && (p == Holding && s.queue != [] ==> r == Goto(s, t, Filled))
      && (p == Filled && s.queue != [] ==> r == Goto(s, t, Front(s.taken, s.queue[0])))
      && (p.Front? && s.queue != [] ==>
            r == Goto(s.(queue := s.queue[1..], taken := s.taken + 1), t, Popped(p.index, p.request)))
      && (p.Popped? ==> r == Goto(s.(owner := None), t, Working(p.index, p.request)))
      && (p.Working? ==> r == Goto(s.(done := s.done + {p.index}), t, Top))
  {
    var q := Apply(Goto(s, t, p), Step(t)).threads[t];
    assert s.threads[t := p][t := q] == s.threads[t := q];
  }

  lemma AppenderStep(s: State, t: Tid, p: Pc)
    requires t in s.threads
    ensures
      var r := Apply(Goto(s, t, p), Step(t));
      && (p.Called? && s.owner == None ==> r == Goto(s.(owner := Some(t)), t, Entered(p.request)))
      && (p.Entered? && |s.queue| <= s.maxRequests ==> r == Goto(s, t, Room(p.request)))
      && (p.Room? ==>
            r == Goto(s.(queue := s.queue + [p.request], accepted := s.accepted + [p.request]), t, Pushed))
      && (p.Pushed? ==> r == Goto(s.(owner := None), t, Unlocked))
      && (p.Unlocked? ==> r == Goto(s.(sem := s.sem + 1), t, Idle))
  {
    var q := Apply(Goto(s, t, p), Step(t)).threads[t];
    assert s.threads[t := p][t := q] == s.threads[t := q];
  }

  lemma StepsNext(s: State, t: Tid, n: nat, r: State, r': State)
    requires Steps(s, t, n) == r && Apply(r, Step(t)) == r'
    ensures Steps(s, t, n + 1) == r'
  {
    hide Apply;
  }

  lemma StepsNone(s: State, t: Tid, p: Pc)
    requires t in s.threads && s.threads[t] == p
    ensures Steps(s, t, 0) == s == Goto(s, t, p)
  {
    assert s.threads[t := p] == s.threads;
  }

  /** A waiting worker that runs while a request is queued and counted and the mutex is free takes the oldest request
      and processes it. */
  lemma WorkerProcesses(s: State, t: Tid)
    requires t in s.threads && s.threads[t] == Waiting && s.sem > 0 && s.owner == None && s.queue != []
    ensures Steps(s, t, 7) == s.(sem := s.sem - 1, queue := s.queue[1..], taken := s.taken + 1,
                                 done := s.done + {s.taken}, threads := s.threads[t := Top])
  {
    var s1, q := s.(sem := s.sem - 1), s.queue[0];
    var s2 := s1.(owner := Some(t));
    var s5 := s2.(queue := s.queue[1..], taken := s.taken + 1);
    var s6 := s5.(owner := None);
    var s7 := s6.(done := s.done + {s.taken});
    assert Goto(s7, t, Top) == s.(sem := s.sem - 1, queue := s.queue[1..], taken := s.taken + 1,
                                  done := s.done + {s.taken}, threads := s.threads[t := Top]);
    StepsNone(s, t, Waiting);
    WorkerStep(s, t, Waiting);
    WorkerStep(s1, t, Woken);
    WorkerStep(s2, t, Holding);
    WorkerStep(s2, t, Filled);
    WorkerStep(s2, t, Front(s.taken, q));
    WorkerStep(s5, t, Popped(s.taken, q));
    WorkerStep(s6, t, Working(s.taken, q));
    hide Apply, Steps, Goto;
    StepsNext(s, t, 0, s, Goto(s1, t, Woken));
    StepsNext(s, t, 1, Goto(s1, t, Woken), Goto(s2, t, Holding));
    StepsNext(s, t, 2, Goto(s2, t, Holding), Goto(s2, t, Filled));
    StepsNext(s, t, 3, Goto(s2, t, Filled), Goto(s2, t, Front(s.taken, q)));
    StepsNext(s, t, 4, Goto(s2, t, Front(s.taken, q)), Goto(s5, t, Popped(s.taken, q)));
    StepsNext(s, t, 5, Goto(s5, t, Popped(s.taken, q)), Goto(s6, t, Working(s.taken, q)));
    StepsNext(s, t, 6, Goto(s6, t, Working(s.taken, q)), Goto(s7, t, Top));
  }

  /** A thread that appends while the mutex is free and the queue is not over its bound queues the request and announces
      it. */
  lemma AppenderQueues(s: State, t: Tid, q: Request)
    requires t in s.threads && s.threads[t] == Idle && s.owner == None && |s.queue| <= s.maxRequests
    ensures Steps(Apply(s, Call(t, q)), t, 5) ==
            s.(sem := s.sem + 1, queue := s.queue + [q], accepted := s.accepted + [q], threads := s.threads[t := Idle])
  {
    var c := Apply(s, Call(t, q));
    var s1 := s.(owner := Some(t));
    var s3 := s1.(queue := s.queue + [q], accepted := s.accepted + [q]);
    var s4 := s3.(owner := None);
    var s5 := s4.(sem := s.sem + 1);
    assert c == Goto(s, t, Called(q)) && Steps(c, t, 0) == c;
    assert Goto(s5, t, Idle) == s.(sem := s.sem + 1, queue := s.queue + [q], accepted := s.accepted + [q],
                                   threads := s.threads[t := Idle]);
    AppenderStep(s, t, Called(q));
    AppenderStep(s1, t, Entered(q));
    AppenderStep(s1, t, Room(q));
    AppenderStep(s3, t, Pushed);
    AppenderStep(s4, t, Unlocked);
    hide Apply, Steps, Goto;
    StepsNext(c, t, 0, c, Goto(s1, t, Entered(q)));
    StepsNext(c, t, 1, Goto(s1, t, Entered(q)), Goto(s1, t, Room(q)));
    StepsNext(c, t, 2, Goto(s1, t, Room(q)), Goto(s3, t, Pushed));
    StepsNext(c, t, 3, Goto(s3, t, Pushed), Goto(s4, t, Unlocked));
    StepsNext(c, t, 4, Goto(s4, t, Unlocked), Goto(s5, t, Idle));
  }

  /** No request is stuck: whenever all threads rest and the queue is not empty, every waiting worker can process the
      oldest request by itself. */
  lemma NothingIsStuck(s: State, actions: seq<Action>, t: Tid)
    requires Initial(s) && Quiet(Run(s, actions)) && Run(s, actions).queue != []
    requires t in Run(s, actions).threads && Run(s, actions).threads[t] == Waiting
    ensures
      var r := Run(s, actions);
      var r' := Steps(r, t, 7);
      r'.queue == r.queue[1..] && r.taken in r'.done && r'.taken == r.taken + 1
  {
    NoLostWakeup(s, actions);
    WorkerProcesses(Run(s, actions), t);
  }

  ghost predicate Quiet(s: State) {
    forall t <- s.threads :: s.threads[t] == Idle || s.threads[t] == Waiting
  }

  /** No wake-up is lost: once every append has returned and every worker waits, the semaphore counts the queue
      exactly. */
  lemma NoLostWakeup(s: State, actions: seq<Action>)
    requires Initial(s) && Quiet(Run(s, actions))
    ensures
      var r := Run(s, actions);
      r.sem == |r.queue| && r.owner == None && forall i: nat :: i < r.taken ==> i in r.done
  {
    RunKeepsInv(s, actions);
    var r := Run(s, actions);
    CountNone(r.threads, Committed);
    CountNone(r.threads, Unposted);
    forall i: nat | i < r.taken
      ensures i in r.done
    {
      assert i !in r.done ==> InHands(r, i);
    }
  }
}
