/**
 The producers and consumers of the semaphore lesson: a linked list used as a stack, a mutex and two semaphores. Any
 number of threads run; a step reads or writes shared memory once, and steps interleave in every way.
 */
module BoundedBuffer {
  import opened Prelude
  import opened Threads

  type Tid = nat
  type Pointer = Option<nat>

  const CAPACITY: nat := 8

  /** A node in memory; its number is None until it is assigned. */
  datatype Node = Node(num: Option<int>, next: Pointer)

  type Heap = map<nat, Node>

  datatype Pc =
    // producer
    | PTop                                // before sem_wait(psem)
    | PReserved                           // before the lock
    | PHolding                            // lock held, before malloc()
    | PAllocated(node: nat)               // before newnode->next = head
    | PPointed(node: nat)                 // before head = newnode
    | PLinked(node: nat)                  // before newnode->num is assigned
    | PNumbered(node: nat)                // before newnode->num is printed
    | PPrinted                            // lock held, before it is released
    | PUnlocked                           // before sem_post(csem)
    // customer
    | CTop                                // before sem_wait(csem)
    | CReserved                           // before the lock
    | CHolding                            // lock held, before tmp = head
    | CRead(tmp: Pointer)                 // before head->next is read
    | CNext(tmp: Pointer, next: Pointer)  // before it is stored in head
    | CUnlinked(tmp: Pointer)             // before tmp->num is printed
    | CPrinted(tmp: Pointer)              // before free(tmp)
    | CFreed                              // lock held, before it is released
    | CUnlocked                           // before sem_post(psem)
    | Crashed                             // a null or dangling pointer was used, or a number that was never assigned

  /** Memory, and its history: the nodes linked and not unlinked, latest first, and the numbers assigned and printed. */
  datatype Memory = Memory(
    heap: Heap,
    head: Pointer,
    list: seq<nat>,
    added: multiset<int>,
    removed: multiset<int>)

  datatype State = State(
    memory: Memory,
    psem: nat,
    csem: nat,
    owner: Option<Tid>,                   // of the mutex
    threads: map<Tid, Pc>)

  /** A step of a thread, with the random number, and what malloc() gives: free memory with something in it. */
  datatype Action = Action(t: Tid, num: int, place: nat, junk: Pointer)

  /** The points between lock and unlock at which memory is used. */
  predicate InSection(p: Pc) {
    || p.PHolding? || p.PAllocated? || p.PPointed? || p.PLinked? || p.PNumbered?
    || p.CHolding? || p.CRead? || p.CNext? || p.CUnlinked? || p.CPrinted?
  }

  function Access(m: Memory, a: Action, p: Pc): (Memory, Pc)
    requires InSection(p)
  {
    match p
    case PHolding =>
      if a.place in m.heap then (m, p)
      else (m.(heap := m.heap[a.place := Node(None, a.junk)]), PAllocated(a.place))
    case PAllocated(n) =>
      if n !in m.heap then (m, Crashed) else (m.(heap := m.heap[n := m.heap[n].(next := m.head)]), PPointed(n))
    case PPointed(n) => (m.(head := Some(n), list := [n] + m.list), PLinked(n))
    case PLinked(n) =>
      if n !in m.heap then (m, Crashed)
      else (m.(heap := m.heap[n := m.heap[n].(num := Some(a.num))], added := m.added + multiset{a.num}), PNumbered(n))
    case PNumbered(n) => (m, if n !in m.heap || m.heap[n].num == None then Crashed else PPrinted)
    case CHolding => (m, CRead(m.head))
    case CRead(tmp) =>
      (m, if m.head == None || m.head.value !in m.heap then Crashed else CNext(tmp, m.heap[m.head.value].next))
    case CNext(tmp, next) => (m.(head := next, list := if m.list == [] then [] else m.list[1..]), CUnlinked(tmp))
    case CUnlinked(tmp) =>
      if tmp == None || tmp.value !in m.heap || m.heap[tmp.value].num == None then (m, Crashed)
      else (m.(removed := m.removed + multiset{m.heap[tmp.value].num.value}), CPrinted(tmp))
    case CPrinted(tmp) =>
      if tmp == None || tmp.value !in m.heap then (m, Crashed) else (m.(heap := m.heap - {tmp.value}), CFreed)
  }

  function Goto(s: State, t: Tid, p: Pc): State {
    s.(threads := s.threads[t := p])
  }

  function Apply(s: State, a: Action): State {
    var t := a.t;
    if t !in s.threads then s
    else if InSection(s.threads[t]) then
      var (memory, p) := Access(s.memory, a, s.threads[t]);
      Goto(s.(memory := memory), t, p)
    else match s.threads[t]
      case PTop => if s.psem > 0 then Goto(s.(psem := s.psem - 1), t, PReserved) else s
      case PReserved => if s.owner == None then Goto(s.(owner := Some(t)), t, PHolding) else s
      case PPrinted => Goto(s.(owner := None), t, PUnlocked)
      case PUnlocked => Goto(s.(csem := s.csem + 1), t, PTop)
      case CTop => if s.csem > 0 then Goto(s.(csem := s.csem - 1), t, CReserved) else s
      case CReserved => if s.owner == None then Goto(s.(owner := Some(t)), t, CHolding) else s
      case CFreed => Goto(s.(owner := None), t, CUnlocked)
      case CUnlocked => Goto(s.(psem := s.psem + 1), t, CTop)
      case _ => s
  }

  function Run(s: State, actions: seq<Action>): State {
    if actions == [] then s else Apply(Run(s, actions[..|actions| - 1]), actions[|actions| - 1])
  }

  const EMPTY := Memory(map[], None, [], multiset{}, multiset{})

  predicate Initial(s: State) {
    && s.memory == EMPTY && s.psem == CAPACITY && s.csem == 0 && s.owner == None
    && forall t <- s.threads :: s.threads[t] == PTop || s.threads[t] == CTop
  }

  // ---------------------------------------------------------------------------
  // The lock and the places
  // ---------------------------------------------------------------------------

  predicate Holds(p: Pc) {
    InSection(p) || p.PPrinted? || p.CFreed?
  }

  /** Producers that took a free place and have not filled it. */
  predicate Reserved(p: Pc) { p.PReserved? || p.PHolding? || p.PAllocated? || p.PPointed? }

  /** Producers that filled a place and have not announced it. */
  predicate Unannounced(p: Pc) { p.PLinked? || p.PNumbered? || p.PPrinted? || p.PUnlocked? }

  /** Customers that were promised a node and have not taken it. */
  predicate Promised(p: Pc) { p.CReserved? || p.CHolding? || p.CRead? || p.CNext? }

  /** Customers that took a node and have not freed its place. */
  predicate Unreturned(p: Pc) { p.CUnlinked? || p.CPrinted? || p.CFreed? || p.CUnlocked? }

  ghost predicate LockOk(s: State) {
    && (s.owner.Some? ==> s.owner.value in s.threads)
    && forall t <- s.threads :: Holds(s.threads[t]) <==> s.owner == Some(t)
  }

  /** Places are conserved, and every node is announced, promised, or about to be announced. */
  ghost predicate PlacesOk(s: State) {
    && |s.memory.list| == s.csem + |At(s.threads, Promised)| + |At(s.threads, Unannounced)|
    && CAPACITY == |s.memory.list| + s.psem + |At(s.threads, Reserved)| + |At(s.threads, Unreturned)|
  }

  /** A customer that was promised a node finds one. */
  lemma NeverNull(s: State, t: Tid)
    requires PlacesOk(s) && t in s.threads && Promised(s.threads[t])
    ensures s.memory.list != []
  {
    CountSome(s.threads, Promised, t);
  }

  /** A step inside the critical section stays inside, unless it crashes, and counts as its point says. */
  lemma AccessMoves(m: Memory, a: Action, p: Pc)
    requires InSection(p) && !Access(m, a, p).1.Crashed? && (p.CNext? ==> m.list != [])
    ensures
      var (m', q) := Access(m, a, p);
      && Holds(q)
      && |m'.list| - |m.list| == One(Promised(q)) + One(Unannounced(q)) - One(Promised(p)) - One(Unannounced(p))
      && |m'.list| - |m.list| == One(Reserved(p)) + One(Unreturned(p)) - One(Reserved(q)) - One(Unreturned(q))
  {
  }

  lemma ApplyKeepsLock(s: State, a: Action)
    requires LockOk(s) && a.t in s.threads && !s.threads[a.t].Crashed?
    requires InSection(s.threads[a.t]) ==> Holds(Access(s.memory, a, s.threads[a.t]).1)
    ensures LockOk(Apply(s, a))
  {
    hide Access;
  }

  /** How a thread's step moves the counts, in terms of the program points before and after. */
  ghost predicate Moves(s: State, r: State, t: Tid) {
    t in s.threads && t in r.threads && r.threads == s.threads[t := r.threads[t]] &&
    var (p, q) := (s.threads[t], r.threads[t]);
    && |r.memory.list| - r.csem - (|s.memory.list| - s.csem)
      == One(Promised(q)) + One(Unannounced(q)) - One(Promised(p)) - One(Unannounced(p))
    && |r.memory.list| + r.psem - (|s.memory.list| + s.psem)
      == One(Reserved(p)) + One(Unreturned(p)) - One(Reserved(q)) - One(Unreturned(q))
  }

  lemma MovesKeepsPlaces(s: State, r: State, t: Tid)
    requires PlacesOk(s) && Moves(s, r, t)
    ensures PlacesOk(r)
  {
    hide At;
    var q := r.threads[t];
    CountMove(s.threads, Promised, t, q);
    CountMove(s.threads, Unannounced, t, q);
    CountMove(s.threads, Reserved, t, q);
    CountMove(s.threads, Unreturned, t, q);
  }

  lemma ApplyMoves(s: State, a: Action)
    requires a.t in s.threads && !s.threads[a.t].Crashed?
    requires InSection(s.threads[a.t]) ==>
      !Access(s.memory, a, s.threads[a.t]).1.Crashed? && (s.threads[a.t].CNext? ==> s.memory.list != [])
    ensures Moves(s, Apply(s, a), a.t)
  {
    if InSection(s.threads[a.t]) {
      AccessMoves(s.memory, a, s.threads[a.t]);
      hide Access, Promised, Unannounced, Reserved, Unreturned;
    }
  }

  // ---------------------------------------------------------------------------
  // Memory
  // ---------------------------------------------------------------------------

  /** Following the pointers from head visits these nodes and ends. */
  predicate Chain(heap: Heap, head: Pointer, list: seq<nat>)
    decreases |list|
  {
    if list == [] then head == None
    else head == Some(list[0]) && list[0] in heap && Chain(heap, heap[list[0]].next, list[1..])
  }

  function Nodes(list: seq<nat>): set<nat> {
    set n <- list
  }

  function NumberOf(heap: Heap, n: nat): multiset<int> {
    if n in heap && heap[n].num.Some? then multiset{heap[n].num.value} else multiset{}
  }

  /** The numbers of the nodes that have one. */
  function Numbers(heap: Heap, list: seq<nat>): multiset<int> {
    if list == [] then multiset{} else NumberOf(heap, list[0]) + Numbers(heap, list[1..])
  }

  /** The node that only the holder of the lock can reach. */
  function Private(p: Pc): set<nat> {
    match p
    case PAllocated(n) => {n}
    case PPointed(n) => {n}
    case CUnlinked(tmp) => if tmp.Some? then {tmp.value} else {}
    case CPrinted(tmp) => if tmp.Some? then {tmp.value} else {}
    case _ => {}
  }

  /** A number that was unlinked and not printed yet. */
  function InHand(heap: Heap, p: Pc): multiset<int> {
    if p.CUnlinked? && p.tmp.Some? then NumberOf(heap, p.tmp.value) else multiset{}
  }

  predicate Unnumbered(heap: Heap, n: nat) {
    n in heap ==> heap[n].num == None
  }

  /** What the holder of the lock did and read is still so. */
  ghost predicate SawHead(m: Memory, p: Pc) {
    match p
    case PAllocated(n) => Unnumbered(m.heap, n)
    case PPointed(n) => Unnumbered(m.heap, n) && n in m.heap && m.heap[n].next == m.head
    case PLinked(n) => Unnumbered(m.heap, n) && m.list != [] && m.list[0] == n
    case PNumbered(n) => m.list != [] && m.list[0] == n
    case CRead(tmp) => m.list != [] && tmp == Some(m.list[0])
    case CNext(tmp, next) =>
      m.list != [] && tmp == Some(m.list[0]) && m.list[0] in m.heap && next == m.heap[m.list[0]].next
    case CUnlinked(tmp) => tmp.Some? && !Unnumbered(m.heap, tmp.value)
    case CPrinted(tmp) => tmp.Some?
    case _ => true
  }

  /** The node that the holder of the lock has just linked. */
  function JustLinked(p: Pc): set<nat> {
    if p.PLinked? then {p.node} else {}
  }

  /** All other nodes of the list have numbers. */
  ghost predicate Numbered(m: Memory, but: set<nat>) {
    forall n <- m.list :: Unnumbered(m.heap, n) ==> n in but
  }

  /** The memory in use is the list from head on, and what the holder of the lock works on. */
  ghost predicate ListOk(m: Memory, mine: set<nat>) {
    && Chain(m.heap, m.head, m.list) && Distinct(m.list)
    && m.heap.Keys == Nodes(m.list) + mine && (forall n <- mine :: n !in m.list)
  }

  /** The numbers assigned were printed or are still in memory. */
  ghost predicate Balanced(m: Memory, p: Pc) {
    m.added == m.removed + Numbers(m.heap, m.list) + InHand(m.heap, p)
  }

  ghost predicate MemoryOk(m: Memory, p: Pc) {
    ListOk(m, Private(p)) && Numbered(m, JustLinked(p)) && SawHead(m, p) && Balanced(m, p)
  }

  /** Where the holder of the lock is; PTop if nobody holds it. */
  function HolderPc(s: State): Pc {
    if s.owner.Some? && s.owner.value in s.threads then s.threads[s.owner.value] else PTop
  }

  ghost predicate Inv(s: State) {
    && LockOk(s) && PlacesOk(s) && MemoryOk(s.memory, HolderPc(s))
    && forall t <- s.threads :: !s.threads[t].Crashed?
  }

  /** The links and numbers of a list depend on its nodes only. */
  lemma {:induction false} ListFrame(heap: Heap, heap': Heap, head: Pointer, list: seq<nat>)
    requires Chain(heap, head, list) && forall n <- list :: n in heap ==> n in heap' && heap'[n] == heap[n]
    ensures Chain(heap', head, list) && Numbers(heap', list) == Numbers(heap, list)
    decreases |list|
  {
    if list != [] {
      ListFrame(heap, heap', heap[list[0]].next, list[1..]);
    }
  }

  lemma DistinctTail(list: seq<nat>)
    requires list != [] && Distinct(list)
    ensures Distinct(list[1..]) && list[0] !in list[1..] && Nodes(list) == Nodes(list[1..]) + {list[0]}
  {
    assert list == [list[0]] + list[1..];
  }

  lemma DistinctCons(n: nat, list: seq<nat>)
    requires n !in list && Distinct(list)
    ensures Distinct([n] + list) && Nodes([n] + list) == Nodes(list) + {n}
  {
  }

  // ---------------------------------------------------------------------------
  // What the holder of the lock does to memory
  // ---------------------------------------------------------------------------

  /** A step from p does not crash and keeps memory in order. */
  ghost predicate Keeps(m: Memory, a: Action, p: Pc)
    requires InSection(p)
  {
    !Access(m, a, p).1.Crashed? && MemoryOk(Access(m, a, p).0, Access(m, a, p).1)
  }

  /** Memory outside the list changes. */
  lemma PrivateChange(m: Memory, heap: Heap, p: Pc, q: Pc)
    requires ListOk(m, Private(p)) && Numbered(m, {}) && Balanced(m, p) && !p.CUnlinked? && !q.CUnlinked?
    requires heap.Keys == Nodes(m.list) + Private(q) && (forall n <- Private(q) :: n !in m.list)
    requires forall n <- m.list :: n in m.heap && n in heap && heap[n] == m.heap[n]
    ensures
      var m' := m.(heap := heap);
      ListOk(m', Private(q)) && Numbered(m', {}) && Balanced(m', q)
  {
    hide Private, Distinct, Nodes, Chain, Numbers;
    ListFrame(m.heap, heap, m.head, m.list);
    StillNumbered(m, heap);
    hide Numbered;
  }

  lemma StillNumbered(m: Memory, heap: Heap)
    requires Numbered(m, {})
    requires forall n <- m.list :: n in m.heap && n in heap && heap[n] == m.heap[n]
    ensures Numbered(m.(heap := heap), {})
  {
  }

  lemma ListInHeap(m: Memory, mine: set<nat>)
    requires ListOk(m, mine)
    ensures (forall n <- m.list :: n in m.heap) && (forall n <- mine :: n in m.heap)
  {
    hide Chain, Distinct;
    assert forall n <- m.list :: n in Nodes(m.list);
  }

  lemma Allocate(m: Memory, a: Action)
    requires MemoryOk(m, PHolding)
    ensures Keeps(m, a, PHolding)
  {
    hide ListOk, Numbered, Balanced;
    if a.place !in m.heap {
      ListInHeap(m, {});
      ListKeys(m, {});
      PrivateChange(m, m.heap[a.place := Node(None, a.junk)], PHolding, PAllocated(a.place));
    }
  }

  lemma ListKeys(m: Memory, mine: set<nat>)
    requires ListOk(m, mine)
    ensures m.heap.Keys == Nodes(m.list) + mine && (forall n <- mine :: n !in m.list)
  {
  }

  lemma Point(m: Memory, a: Action, n: nat)
    requires MemoryOk(m, PAllocated(n))
    ensures Keeps(m, a, PAllocated(n))
  {
    hide ListOk, Numbered, Balanced;
    ListInHeap(m, {n});
    ListKeys(m, {n});
    var heap := m.heap[n := m.heap[n].(next := m.head)];
    assert heap.Keys == m.heap.Keys;
    PrivateChange(m, heap, PAllocated(n), PPointed(n));
  }

  lemma LinkList(m: Memory, n: nat)
    requires ListOk(m, {n}) && n in m.heap && m.heap[n].next == m.head
    ensures ListOk(m.(head := Some(n), list := [n] + m.list), {})
  {
    var list := [n] + m.list;
    DistinctCons(n, m.list);
    hide Distinct;
    assert list[1..] == m.list;
    assert Chain(m.heap, Some(n), list);
  }

  lemma Link(m: Memory, a: Action, n: nat)
    requires MemoryOk(m, PPointed(n))
    ensures Keeps(m, a, PPointed(n))
  {
    LinkList(m, n);
    hide ListOk;
    var list := [n] + m.list;
    assert list[1..] == m.list;
    assert Numbers(m.heap, list) == Numbers(m.heap, m.list);
    hide Numbers;
  }

  lemma NumberHead(m: Memory, num: int)
    requires ListOk(m, {}) && m.list != []
    ensures m.list[0] in m.heap
    ensures
      var m' := m.(heap := m.heap[m.list[0] := m.heap[m.list[0]].(num := Some(num))]);
      && ListOk(m', {})
      && (Unnumbered(m.heap, m.list[0]) ==> Numbers(m'.heap, m.list) == Numbers(m.heap, m.list) + multiset{num})
  {
    var n := m.list[0];
    ListInHeap(m, {});
    var heap := m.heap[n := m.heap[n].(num := Some(num))];
    DistinctTail(m.list);
    hide Distinct;
    ListFrame(m.heap, heap, m.heap[n].next, m.list[1..]);
    assert heap.Keys == m.heap.Keys;
    assert Chain(heap, m.head, m.list);
  }

  lemma AssignNumber(m: Memory, a: Action, n: nat)
    requires MemoryOk(m, PLinked(n))
    ensures Keeps(m, a, PLinked(n))
  {
    hide ListOk, Balanced, Numbered;
    NumberHead(m, a.num);
    var heap := m.heap[n := m.heap[n].(num := Some(a.num))];
    SameList(m.(heap := heap), m.(heap := heap, added := m.added + multiset{a.num}), {});
    NumberBalance(m, heap, n, a.num);
    AllNumbered(m, n, a.num);
  }

  lemma NumberBalance(m: Memory, heap: Heap, n: nat, num: int)
    requires Balanced(m, PLinked(n)) && Numbers(heap, m.list) == Numbers(m.heap, m.list) + multiset{num}
    ensures Balanced(m.(heap := heap, added := m.added + multiset{num}), PNumbered(n))
  {
    hide Numbers;
  }

  lemma AllNumbered(m: Memory, n: nat, num: int)
    requires Numbered(m, {n}) && n in m.heap
    ensures Numbered(m.(heap := m.heap[n := m.heap[n].(num := Some(num))], added := m.added + multiset{num}), {})
  {
  }

  lemma PrintAdded(m: Memory, a: Action, n: nat)
    requires MemoryOk(m, PNumbered(n))
    ensures Keeps(m, a, PNumbered(n))
  {
    hide ListOk, Numbers;
    ListInHeap(m, {});
    assert n in m.list;
    assert Balanced(m, PPrinted);
    hide Balanced;
  }

  lemma ReadHead(m: Memory, a: Action)
    requires MemoryOk(m, CHolding) && m.list != []
    ensures Keeps(m, a, CHolding)
  {
    hide Distinct, Numbers;
    assert Balanced(m, CRead(m.head));
    hide Balanced;
  }

  lemma ReadNext(m: Memory, a: Action, tmp: Pointer)
    requires MemoryOk(m, CRead(tmp))
    ensures Keeps(m, a, CRead(tmp))
  {
    hide Distinct, Numbers;
    assert m.list[0] in m.heap && m.head == Some(m.list[0]);
    assert Balanced(m, CNext(tmp, m.heap[m.list[0]].next));
    hide Balanced;
  }

  lemma UnlinkList(m: Memory)
    requires ListOk(m, {}) && m.list != [] && m.list[0] in m.heap
    ensures ListOk(m.(head := m.heap[m.list[0]].next, list := m.list[1..]), {m.list[0]})
  {
    DistinctTail(m.list);
    hide Distinct;
  }

  lemma UnlinkNumber(m: Memory, p: Pc)
    requires Balanced(m, p) && p.CNext? && m.list != []
    ensures Balanced(m.(head := p.next, list := m.list[1..]), CUnlinked(Some(m.list[0])))
  {
    hide NumberOf;
  }

  lemma RestIsNumbered(m: Memory, head: Pointer)
    requires Numbered(m, {}) && m.list != []
    ensures Numbered(m.(head := head, list := m.list[1..]), {}) && !Unnumbered(m.heap, m.list[0])
  {
    hide Unnumbered;
    assert m.list[0] in m.list && forall n <- m.list[1..] :: n in m.list;
  }

  lemma Unlink(m: Memory, a: Action, tmp: Pointer, next: Pointer)
    requires MemoryOk(m, CNext(tmp, next))
    ensures Keeps(m, a, CNext(tmp, next))
  {
    hide ListOk, Balanced, Numbered, Unnumbered;
    UnlinkList(m);
    UnlinkNumber(m, CNext(tmp, next));
    RestIsNumbered(m, next);
  }

  lemma PrintRemoved(m: Memory, a: Action, tmp: Pointer)
    requires MemoryOk(m, CUnlinked(tmp))
    ensures Keeps(m, a, CUnlinked(tmp))
  {
    hide ListOk, Numbers;
    ListInHeap(m, Private(CUnlinked(tmp)));
    assert tmp.value in Private(CUnlinked(tmp));
    assert Balanced(m.(removed := m.removed + multiset{m.heap[tmp.value].num.value}), CPrinted(tmp));
    hide Balanced;
    SameList(m, m.(removed := m.removed + multiset{m.heap[tmp.value].num.value}), {tmp.value});
  }

  lemma SameList(m: Memory, m': Memory, mine: set<nat>)
    requires ListOk(m, mine) && m'.heap == m.heap && m'.head == m.head && m'.list == m.list
    ensures ListOk(m', mine)
  {
  }

  lemma Free(m: Memory, a: Action, tmp: Pointer)
    requires MemoryOk(m, CPrinted(tmp))
    ensures Keeps(m, a, CPrinted(tmp))
  {
    hide ListOk, Numbered, Balanced;
    ListInHeap(m, {tmp.value});
    ListKeys(m, {tmp.value});
    assert tmp.value in {tmp.value};
    PrivateChange(m, m.heap - {tmp.value}, CPrinted(tmp), CFreed);
  }

  lemma AccessKeepsMemory(m: Memory, a: Action, p: Pc)
    requires InSection(p) && MemoryOk(m, p) && (p.CHolding? ==> m.list != [])
    ensures Keeps(m, a, p)
  {
    hide MemoryOk, Keeps;
    match p
    case PHolding => Allocate(m, a);
    case PAllocated(n) => Point(m, a, n);
    case PPointed(n) => Link(m, a, n);
    case PLinked(n) => AssignNumber(m, a, n);
    case PNumbered(n) => PrintAdded(m, a, n);
    case CHolding => ReadHead(m, a);
    case CRead(tmp) => ReadNext(m, a, tmp);
    case CNext(tmp, next) => Unlink(m, a, tmp, next);
    case CUnlinked(tmp) => PrintRemoved(m, a, tmp);
    case CPrinted(tmp) => Free(m, a, tmp);
  }

  // ---------------------------------------------------------------------------
  // Every step keeps the invariant
  // ---------------------------------------------------------------------------

  /** Points at which the thread works on no node. */
  predicate HandsFree(p: Pc) {
    !InSection(p) || p.PHolding? || p.CHolding?
  }

  lemma HandsFreeMemory(m: Memory, p: Pc, q: Pc)
    requires MemoryOk(m, p) && HandsFree(p) && HandsFree(q)
    ensures MemoryOk(m, q)
  {
    hide ListOk, Numbers, Unnumbered;
  }

  /** A thread in its critical section is the one memory is in order for. */
  lemma InSectionIsHolder(s: State, t: Tid)
    requires LockOk(s) && t in s.threads && Holds(s.threads[t])
    ensures s.owner == Some(t) && HolderPc(s) == s.threads[t]
  {
  }

  lemma SectionKeepsInv(s: State, a: Action)
    requires Inv(s) && a.t in s.threads && InSection(s.threads[a.t])
    ensures Inv(Apply(s, a))
  {
    var p := s.threads[a.t];
    var r := Apply(s, a);
    if Promised(p) { NeverNull(s, a.t); }
    InSectionIsHolder(s, a.t);
    assert r.owner == s.owner && r.threads == s.threads[a.t := Access(s.memory, a, p).1];
    hide PlacesOk, MemoryOk, Access;
    AccessKeepsMemory(s.memory, a, p);
    AccessMoves(s.memory, a, p);
    ApplyKeepsLock(s, a);
    ApplyMoves(s, a);
    MovesKeepsPlaces(s, r, a.t);
    assert HolderPc(r) == Access(s.memory, a, p).1;
  }

  lemma ControlKeepsMemory(s: State, a: Action)
    requires LockOk(s) && MemoryOk(s.memory, HolderPc(s)) && a.t in s.threads && !InSection(s.threads[a.t])
    ensures MemoryOk(Apply(s, a).memory, HolderPc(Apply(s, a)))
  {
    hide MemoryOk;
    var p, q := HolderPc(s), HolderPc(Apply(s, a));
    if p != q {
      assert HandsFree(p) && HandsFree(q);
      HandsFreeMemory(s.memory, p, q);
    }
  }

  lemma ControlCrashesNobody(s: State, a: Action)
    requires (forall t <- s.threads :: !s.threads[t].Crashed?) && a.t in s.threads && !InSection(s.threads[a.t])
    ensures forall t <- Apply(s, a).threads :: !Apply(s, a).threads[t].Crashed?
  {
  }

  lemma ControlKeepsInv(s: State, a: Action)
    requires Inv(s) && a.t in s.threads && !InSection(s.threads[a.t])
    ensures Inv(Apply(s, a))
  {
    ControlCrashesNobody(s, a);
    hide PlacesOk, MemoryOk, LockOk, HolderPc, Moves, Apply;
    ControlKeepsMemory(s, a);
    ApplyKeepsLock(s, a);
    ApplyMoves(s, a);
    MovesKeepsPlaces(s, Apply(s, a), a.t);
  }

  lemma InitialInv(s: State)
    requires Initial(s)
    ensures Inv(s)
  {
    InitialPlaces(s);
    hide PlacesOk, At;
  }

  lemma InitialPlaces(s: State)
    requires Initial(s)
    ensures PlacesOk(s)
  {
    CountNone(s.threads, Promised);
    CountNone(s.threads, Unannounced);
    CountNone(s.threads, Reserved);
    CountNone(s.threads, Unreturned);
  }

  lemma {:induction false} RunKeepsInv(s: State, actions: seq<Action>)
    requires Initial(s)
    ensures Inv(Run(s, actions))
    decreases |actions|
  {
    hide Inv, Initial;
    if actions == [] {
      InitialInv(s);
    } else {
      var r, a := Run(s, actions[..|actions| - 1]), actions[|actions| - 1];
      RunKeepsInv(s, actions[..|actions| - 1]);
      if a.t in r.threads {
        if InSection(r.threads[a.t]) { SectionKeepsInv(r, a); } else { ControlKeepsInv(r, a); }
      }
    }
  }

  // ---------------------------------------------------------------------------
  // What every interleaving guarantees
  // ---------------------------------------------------------------------------

  /** For any number of producers and customers and any interleaving: no null or dangling pointer is used, nothing is
      freed twice, one thread at a time holds the lock, and following head visits at most eight different nodes. */
  lemma BufferIsSafe(s: State, actions: seq<Action>)
    requires Initial(s)
    ensures
      var r := Run(s, actions);
      && (forall t <- r.threads :: !r.threads[t].Crashed?)
      && (forall t <- r.threads :: r.threads[t].CHolding? ==> r.memory.head != None)
      && (forall t <- r.threads, u <- r.threads :: Holds(r.threads[t]) && Holds(r.threads[u]) ==> t == u)
      && Chain(r.memory.heap, r.memory.head, r.memory.list) && Distinct(r.memory.list)
      && |r.memory.list| <= CAPACITY && r.psem <= CAPACITY && r.csem <= CAPACITY
  {
    RunKeepsInv(s, actions);
    var r := Run(s, actions);
    forall t <- r.threads | r.threads[t].CHolding?
      ensures r.memory.head != None
    {
      NeverNull(r, t);
    }
  }

  // ---------------------------------------------------------------------------
  // Progress
  // ---------------------------------------------------------------------------

  /** So many steps of one thread, with the same number and the same free memory. */
  function Steps(s: State, a: Action, n: nat): State {
    if n == 0 then s else Apply(Steps(s, a, n - 1), a)
  }

  lemma StepsNext(s: State, a: Action, n: nat, r: State, r': State)
    requires Steps(s, a, n) == r && Apply(r, a) == r'
    ensures Steps(s, a, n + 1) == r'
  {
    hide Apply;
  }

  lemma StepsNone(s: State, a: Action, p: Pc)
    requires a.t in s.threads && s.threads[a.t] == p
    ensures Steps(s, a, 0) == s == Goto(s, a.t, p)
  {
    assert s.threads[a.t := p] == s.threads;
  }

  lemma GotoIs(s: State, t: Tid, p: Pc)
    ensures Goto(s, t, p) == s.(threads := s.threads[t := p])
  {
  }

  lemma SectionStep(s: State, a: Action, p: Pc, m: Memory, q: Pc)
    requires a.t in s.threads && InSection(p) && Access(s.memory, a, p) == (m, q)
    ensures Apply(Goto(s, a.t, p), a) == Goto(s.(memory := m), a.t, q)
  {
    hide Access;
    assert s.threads[a.t := p][a.t := q] == s.threads[a.t := q];
  }

  lemma ControlStep(s: State, a: Action, p: Pc)
    requires a.t in s.threads
    ensures
      var r := Apply(Goto(s, a.t, p), a);
      && (p == PTop && s.psem > 0 ==> r == Goto(s.(psem := s.psem - 1), a.t, PReserved))
      && (p == PReserved && s.owner == None ==> r == Goto(s.(owner := Some(a.t)), a.t, PHolding))
      && (p == PPrinted ==> r == Goto(s.(owner := None), a.t, PUnlocked))
      && (p == PUnlocked ==> r == Goto(s.(csem := s.csem + 1), a.t, PTop))
      && (p == CTop && s.csem > 0 ==> r == Goto(s.(csem := s.csem - 1), a.t, CReserved))
      && (p == CReserved && s.owner == None ==> r == Goto(s.(owner := Some(a.t)), a.t, CHolding))
      && (p == CFreed ==> r == Goto(s.(owner := None), a.t, CUnlocked))
      && (p == CUnlocked ==> r == Goto(s.(psem := s.psem + 1), a.t, CTop))
  {
    hide Access;
    var q := Apply(Goto(s, a.t, p), a).threads[a.t];
    assert s.threads[a.t := p][a.t := q] == s.threads[a.t := q];
  }

  /** The memory after a producer's turn. */
  function Added(m: Memory, a: Action): Memory {
    Memory(m.heap[a.place := Node(Some(a.num), m.head)], Some(a.place), [a.place] + m.list,
           m.added + multiset{a.num}, m.removed)
  }

  lemma AddedIs(m: Memory, a: Action)
    ensures Added(m, a) == Memory(m.heap[a.place := Node(Some(a.num), m.head)], Some(a.place), [a.place] + m.list,
                                  m.added + multiset{a.num}, m.removed)
  {
  }

  /** Inside its critical section a producer allocates, links, numbers and prints a node. */
  lemma ProducerSection(h: State, a: Action)
    requires a.t in h.threads && a.place !in h.memory.heap
    ensures Steps(Goto(h, a.t, PHolding), a, 5) == Goto(h.(memory := Added(h.memory, a)), a.t, PPrinted)
  {
    var m, n, c := h.memory, a.place, Goto(h, a.t, PHolding);
    var m1 := m.(heap := m.heap[n := Node(None, a.junk)]);
    var m2 := m.(heap := m.heap[n := Node(None, m.head)]);
    assert m1.heap[n := Node(None, m.head)] == m2.heap;
    var m3 := m2.(head := Some(n), list := [n] + m.list);
    assert m2.heap[n := Node(Some(a.num), m.head)] == Added(m, a).heap;
    SectionStep(h, a, PHolding, m1, PAllocated(n));
    SectionStep(h.(memory := m1), a, PAllocated(n), m2, PPointed(n));
    SectionStep(h.(memory := m2), a, PPointed(n), m3, PLinked(n));
    SectionStep(h.(memory := m3), a, PLinked(n), Added(m, a), PNumbered(n));
    SectionStep(h.(memory := Added(m, a)), a, PNumbered(n), Added(m, a), PPrinted);
    assert Steps(c, a, 0) == c;
    hide Apply, Steps, Goto, Access, Added;
    StepsNext(c, a, 0, c, Goto(h.(memory := m1), a.t, PAllocated(n)));
    StepsNext(c, a, 1, Goto(h.(memory := m1), a.t, PAllocated(n)), Goto(h.(memory := m2), a.t, PPointed(n)));
    StepsNext(c, a, 2, Goto(h.(memory := m2), a.t, PPointed(n)), Goto(h.(memory := m3), a.t, PLinked(n)));
    StepsNext(c, a, 3, Goto(h.(memory := m3), a.t, PLinked(n)), Goto(h.(memory := Added(m, a)), a.t, PNumbered(n)));
    StepsNext(c, a, 4, Goto(h.(memory := Added(m, a)), a.t, PNumbered(n)),
              Goto(h.(memory := Added(m, a)), a.t, PPrinted));
  }

  lemma {:induction false} StepsAdd(s: State, a: Action, n: nat, k: nat)
    ensures Steps(Steps(s, a, n), a, k) == Steps(s, a, n + k)
    decreases k
  {
    hide Apply;
    if k > 0 {
      StepsAdd(s, a, n, k - 1);
    }
  }

  /** A producer that runs while a place and the mutex are free puts its number in front and announces it. */
  lemma ProducerAdds(s: State, a: Action)
    requires a.t in s.threads && s.threads[a.t] == PTop && s.psem > 0 && s.owner == None
    requires a.place !in s.memory.heap
    ensures
      var m := s.memory;
      Steps(s, a, 9) ==
      s.(psem := s.psem - 1, csem := s.csem + 1, threads := s.threads[a.t := PTop],
         memory := Memory(m.heap[a.place := Node(Some(a.num), m.head)], Some(a.place), [a.place] + m.list,
                          m.added + multiset{a.num}, m.removed))
  {
    hide Apply, Steps, Goto, Added;
    var s1 := s.(psem := s.psem - 1);
    var h := s1.(owner := Some(a.t));
    var h7 := h.(memory := Added(s.memory, a));
    var h8 := h7.(owner := None);
    var h9 := h8.(csem := s.csem + 1);
    AddedIs(s.memory, a);
    GotoIs(h9, a.t, PTop);
    StepsNone(s, a, PTop);
    ControlStep(s, a, PTop);
    ControlStep(s1, a, PReserved);
    ProducerSection(h, a);
    ControlStep(h7, a, PPrinted);
    ControlStep(h8, a, PUnlocked);
    StepsNext(s, a, 0, s, Goto(s1, a.t, PReserved));
    StepsNext(s, a, 1, Goto(s1, a.t, PReserved), Goto(h, a.t, PHolding));
    StepsAdd(s, a, 2, 5);
    StepsNext(s, a, 7, Goto(h7, a.t, PPrinted), Goto(h8, a.t, PUnlocked));
    StepsNext(s, a, 8, Goto(h8, a.t, PUnlocked), Goto(h9, a.t, PTop));
  }

  /** A head that a customer can take: a node with a number. */
  predicate HasHead(m: Memory) {
    m.list != [] && m.head.Some? && m.head.value in m.heap && m.heap[m.head.value].num.Some?
  }

  /** The memory after a customer's turn. */
  function Removed(m: Memory): Memory
    requires HasHead(m)
  {
    var node := m.heap[m.head.value];
    Memory(m.heap - {m.head.value}, node.next, m.list[1..], m.added, m.removed + multiset{node.num.value})
  }

  lemma RemovedIs(m: Memory)
    requires HasHead(m)
    ensures
      var node := m.heap[m.head.value];
      Removed(m) ==
      Memory(m.heap - {m.head.value}, node.next, m.list[1..], m.added, m.removed + multiset{node.num.value})
  {
  }

  /** Inside its critical section a customer unlinks, prints and frees the head. */
  lemma CustomerSection(h: State, a: Action)
    requires a.t in h.threads && HasHead(h.memory)
    ensures Steps(Goto(h, a.t, CHolding), a, 5) == Goto(h.(memory := Removed(h.memory)), a.t, CFreed)
  {
    var m, c := h.memory, Goto(h, a.t, CHolding);
    var node := m.heap[m.head.value];
    var m3 := m.(head := node.next, list := m.list[1..]);
    var m4 := m3.(removed := m.removed + multiset{node.num.value});
    SectionStep(h, a, CHolding, m, CRead(m.head));
    SectionStep(h, a, CRead(m.head), m, CNext(m.head, node.next));
    SectionStep(h, a, CNext(m.head, node.next), m3, CUnlinked(m.head));
    SectionStep(h.(memory := m3), a, CUnlinked(m.head), m4, CPrinted(m.head));
    SectionStep(h.(memory := m4), a, CPrinted(m.head), Removed(m), CFreed);
    assert Steps(c, a, 0) == c && h.(memory := m) == h;
    hide Apply, Steps, Goto, Access, Removed;
    StepsNext(c, a, 0, c, Goto(h, a.t, CRead(m.head)));
    StepsNext(c, a, 1, Goto(h, a.t, CRead(m.head)), Goto(h, a.t, CNext(m.head, node.next)));
    StepsNext(c, a, 2, Goto(h, a.t, CNext(m.head, node.next)), Goto(h.(memory := m3), a.t, CUnlinked(m.head)));
    StepsNext(c, a, 3, Goto(h.(memory := m3), a.t, CUnlinked(m.head)), Goto(h.(memory := m4), a.t, CPrinted(m.head)));
    StepsNext(c, a, 4, Goto(h.(memory := m4), a.t, CPrinted(m.head)), Goto(h.(memory := Removed(m)), a.t, CFreed));
  }

  /** A customer that runs while a node is announced and the mutex is free prints the number at the head, frees that
      node, and leaves the next one as the head. */
  lemma CustomerRemoves(s: State, a: Action)
    requires Inv(s) && a.t in s.threads && s.threads[a.t] == CTop && s.csem > 0 && s.owner == None
    ensures
      var m := s.memory;
      HasHead(m) && m.head.value == m.list[0] &&
      var node := m.heap[m.head.value];
      Steps(s, a, 9) ==
      s.(csem := s.csem - 1, psem := s.psem + 1, threads := s.threads[a.t := CTop],
         memory := Memory(m.heap - {m.head.value}, node.next, m.list[1..], m.added,
                          m.removed + multiset{node.num.value}))
  {
    hide Apply, Steps, Goto, Inv, Removed;
    AnnouncedHead(s);
    var s1 := s.(csem := s.csem - 1);
    var h := s1.(owner := Some(a.t));
    var h7 := h.(memory := Removed(s.memory));
    var h8 := h7.(owner := None);
    var h9 := h8.(psem := s.psem + 1);
    RemovedIs(s.memory);
    GotoIs(h9, a.t, CTop);
    StepsNone(s, a, CTop);
    ControlStep(s, a, CTop);
    ControlStep(s1, a, CReserved);
    CustomerSection(h, a);
    ControlStep(h7, a, CFreed);
    ControlStep(h8, a, CUnlocked);
    StepsNext(s, a, 0, s, Goto(s1, a.t, CReserved));
    StepsNext(s, a, 1, Goto(s1, a.t, CReserved), Goto(h, a.t, CHolding));
    StepsAdd(s, a, 2, 5);
    StepsNext(s, a, 7, Goto(h7, a.t, CFreed), Goto(h8, a.t, CUnlocked));
    StepsNext(s, a, 8, Goto(h8, a.t, CUnlocked), Goto(h9, a.t, CTop));
  }

  lemma AnnouncedHead(s: State)
    requires Inv(s) && s.csem > 0 && s.owner == None
    ensures
      var m := s.memory;
      m.list != [] && m.head == Some(m.list[0]) && m.list[0] in m.heap && m.heap[m.list[0]].num.Some?
  {
    assert s.memory.list[0] in s.memory.list;
  }

  /** Nothing is lost, printed twice or leaked: the numbers assigned are those printed and those in memory, and while
      nobody holds the lock, memory is the list. */
  lemma BufferConserves(s: State, actions: seq<Action>)
    requires Initial(s)
    ensures
      var r := Run(s, actions);
      var m := r.memory;
      && m.added == m.removed + Numbers(m.heap, m.list) + InHand(m.heap, HolderPc(r))
      && (r.owner == None ==> m.heap.Keys == Nodes(m.list) && m.added == m.removed + Numbers(m.heap, m.list))
      && (r.owner == None ==> forall n <- m.list :: NumberOf(m.heap, n) != multiset{})
  {
    RunKeepsInv(s, actions);
  }
}
