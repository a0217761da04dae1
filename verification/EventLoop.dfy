/** The table of file events and the interest set of the kernel, for the epoll and the select backends. */
module EventLoop {
  import opened Prelude

  datatype Mask = Mask(readable: bool, writable: bool, barrier: bool)

  const NONE := Mask(false, false, false)

  function Union(a: Mask, b: Mask): Mask {
    Mask(a.readable || b.readable, a.writable || b.writable, a.barrier || b.barrier)
  }

  function Minus(a: Mask, b: Mask): Mask {
    Mask(a.readable && !b.readable, a.writable && !b.writable, a.barrier && !b.barrier)
  }

  /** EPOLLIN and EPOLLOUT */
  datatype Interest = Interest(input: bool, output: bool)

  function InterestOf(m: Mask): Interest {
    Interest(m.readable, m.writable)
  }

  datatype EpollOp = Add | Mod | Del
  datatype Backend = Epoll | Select

  const FD_SETSIZE: nat := 1024

  /** What epoll watches, and the sets passed to select. */
  datatype Kernel = Kernel(epoll: map<nat, Interest>, rfds: set<nat>, wfds: set<nat>)

  // ---------------------------------------------------------------------------
  // The invariant
  // ---------------------------------------------------------------------------

  /** Beyond the table nothing is registered. */
  function MaskAt(masks: seq<Mask>, fd: nat): Mask {
    if fd < |masks| then masks[fd] else NONE
  }

  /** maxfd is the greatest descriptor in use, or -1. */
  ghost predicate MaxOk(masks: seq<Mask>, maxfd: int) {
    && -1 <= maxfd < |masks| && (maxfd >= 0 ==> MaskAt(masks, maxfd) != NONE)
    && NothingAbove(masks, maxfd)
  }

  ghost predicate NothingAbove(masks: seq<Mask>, fd: int) {
    forall f: nat :: f > fd ==> MaskAt(masks, f) == NONE
  }

  /** The kernel watches exactly the descriptors in use, for exactly the read and write part of their masks. */
  ghost predicate KernelOk(backend: Backend, masks: seq<Mask>, kernel: Kernel) {
    match backend
    case Epoll =>
      && (forall fd: nat :: fd in kernel.epoll <==> MaskAt(masks, fd) != NONE)
      && (forall fd: nat :: fd in kernel.epoll ==> kernel.epoll[fd].input == MaskAt(masks, fd).readable)
      && (forall fd: nat :: fd in kernel.epoll ==> kernel.epoll[fd].output == MaskAt(masks, fd).writable)
    case Select =>
      && (forall fd: nat :: fd in kernel.rfds <==> MaskAt(masks, fd).readable)
      && (forall fd: nat :: fd in kernel.wfds <==> MaskAt(masks, fd).writable)
  }

  // ---------------------------------------------------------------------------
  // Backends
  // ---------------------------------------------------------------------------

  /** epoll_ctl: it may always fail, and fails if the descriptor is or is not watched already. */
  function EpollCtl(k: Kernel, op: EpollOp, fd: nat, ev: Interest, fails: bool): (Kernel, bool) {
    if fails || (op == Add) == (fd in k.epoll) then (k, false)
    else (k.(epoll := if op == Del then k.epoll - {fd} else k.epoll[fd := ev]), true)
  }

  /** aeApiAddEvent, with the mask registered so far. */
  function ApiAddEvent(backend: Backend, k: Kernel, fd: nat, registered: Mask, mask: Mask,
      fails: bool): (Kernel, bool) {
    match backend
    case Epoll =>
      EpollCtl(k, if registered == NONE then Add else Mod, fd, InterestOf(Union(mask, registered)), fails)
    case Select =>
      (k.(rfds := if mask.readable then k.rfds + {fd} else k.rfds,
        wfds := if mask.writable then k.wfds + {fd} else k.wfds), true)
  }

  /** aeApiDelEvent; the result of epoll_ctl is ignored. */
  function ApiDelEvent(backend: Backend, k: Kernel, fd: nat, registered: Mask, mask: Mask, fails: bool): Kernel {
    match backend
    case Epoll =>
      var left := Minus(registered, mask);
      EpollCtl(k, if left != NONE then Mod else Del, fd, InterestOf(left), fails).0
    case Select =>
      k.(rfds := if mask.readable then k.rfds - {fd} else k.rfds,
        wfds := if mask.writable then k.wfds - {fd} else k.wfds)
  }

  ghost predicate Updated(masks: seq<Mask>, masks': seq<Mask>, fd: nat, m: Mask) {
    forall f: nat :: MaskAt(masks', f) == if f == fd then m else MaskAt(masks, f)
  }

  lemma MaskAtUpdate(masks: seq<Mask>, fd: nat, m: Mask)
    requires fd < |masks|
    ensures Updated(masks, masks[fd := m], fd, m)
  {
    var masks' := masks[fd := m];
    forall f: nat
      ensures MaskAt(masks', f) == if f == fd then m else MaskAt(masks, f)
    {
    }
  }

  /** Adding is asked for in the right way, and leaves the kernel in agreement unless nothing is registered. */
  lemma AddAgrees(backend: Backend, masks: seq<Mask>, k: Kernel, fd: nat, mask: Mask, fails: bool)
    requires KernelOk(backend, masks, k) && fd < |masks|
    ensures
      var (k', ok) := ApiAddEvent(backend, k, fd, masks[fd], mask, fails);
      && ok == (backend == Select || !fails) && (!ok ==> k' == k)
      && (ok ==> (KernelOk(backend, masks[fd := Union(masks[fd], mask)], k') <==>
                  mask != NONE || masks[fd] != NONE || backend == Select))
  {
    var masks' := masks[fd := Union(masks[fd], mask)];
    var k' := ApiAddEvent(backend, k, fd, masks[fd], mask, fails).0;
    MaskAtUpdate(masks, fd, Union(masks[fd], mask));
    assert fd in k.epoll && backend == Epoll ==> MaskAt(masks, fd) != NONE;
    if mask == NONE && masks[fd] == NONE && backend == Epoll && !fails {
      assert fd in k'.epoll && MaskAt(masks', fd) == NONE;
    }
  }

  lemma DelAgrees(backend: Backend, masks: seq<Mask>, k: Kernel, fd: nat, mask: Mask, fails: bool)
    requires KernelOk(backend, masks, k) && fd < |masks| && masks[fd] != NONE && (!fails || backend == Select)
    ensures KernelOk(backend, masks[fd := Minus(masks[fd], mask)], ApiDelEvent(backend, k, fd, masks[fd], mask, fails))
  {
    MaskAtUpdate(masks, fd, Minus(masks[fd], mask));
    assert backend == Epoll ==> (fd in k.epoll <==> MaskAt(masks, fd) != NONE);
  }

  lemma RaiseMax(masks: seq<Mask>, maxfd: int, fd: nat, m: Mask)
    requires MaxOk(masks, maxfd) && fd < |masks|
    ensures MaxOk(masks[fd := Union(masks[fd], m)], if fd > maxfd then fd else maxfd) <==> m != NONE || fd <= maxfd
  {
    MaskAtUpdate(masks, fd, Union(masks[fd], m));
    var masks' := masks[fd := Union(masks[fd], m)];
    assert MaskAt(masks', fd) == Union(masks[fd], m);
    if fd > maxfd {
      assert MaskAt(masks, fd) == NONE;
    } else {
      assert MaskAt(masks', maxfd) == if fd == maxfd then Union(masks[fd], m) else MaskAt(masks, maxfd);
      assert MaskAt(masks, maxfd) != NONE;
    }
  }

  /** Deleting from another descriptor than the greatest, or not everything, keeps maxfd. */
  lemma KeepMax(masks: seq<Mask>, maxfd: int, fd: nat, m: Mask)
    requires MaxOk(masks, maxfd) && fd < |masks| && masks[fd] != NONE
    ensures fd <= maxfd
    ensures NothingAbove(masks[fd := m], maxfd)
    ensures !(fd == maxfd && m == NONE) ==> MaxOk(masks[fd := m], maxfd)
  {
    MaskAtUpdate(masks, fd, m);
    assert MaskAt(masks, fd) != NONE;
  }

  // ---------------------------------------------------------------------------
  // The event loop
  // ---------------------------------------------------------------------------

  class AeEventLoop {
    const backend: Backend
    var events: array<Mask>            // the masks of the file events
    var maxfd: int
    var kernel: Kernel

    ghost predicate Valid()
      reads this, events
    {
      MaxOk(events[..], maxfd) && KernelOk(backend, events[..], kernel)
    }

    constructor (backend: Backend, setsize: nat)
      ensures Valid() && this.backend == backend && fresh(events) && events.Length == setsize && maxfd == -1
    {
      this.backend := backend;
      var a := new Mask[setsize];
      for i := 0 to setsize
        invariant forall k :: 0 <= k < i ==> a[k] == NONE
      {
        a[i] := NONE;
      }
      events := a;
      maxfd, kernel := -1, Kernel(map[], {}, {});
    }

    /** aeCreateFileEvent. Registering nothing for an unused descriptor is the one way to break the invariant. */
    method CreateFileEvent(fd: nat, mask: Mask, fails: bool) returns (ok: bool)
      requires Valid()
      modifies this, events
      ensures events == old(events) && ok == (fd < events.Length && (backend == Select || !fails))
      ensures !ok ==> events[..] == old(events[..]) && maxfd == old(maxfd) && kernel == old(kernel)
      ensures ok ==> events[..] == old(events[..])[fd := Union(old(events[..])[fd], mask)]
      ensures ok ==>
        var was := old(events[..])[fd];
        events[fd] == Mask(was.readable || mask.readable, was.writable || mask.writable, was.barrier || mask.barrier)
      ensures ok ==> maxfd == Max(old(maxfd), fd)
      ensures ok ==> kernel == ApiAddEvent(backend, old(kernel), fd, old(events[..])[fd], mask, fails).0
      ensures Valid() <==> !ok || mask != NONE || old(events[..])[fd] != NONE || (backend == Select && fd <= old(maxfd))
    {
      hide MaxOk, KernelOk;
      if fd >= events.Length { return false; }
      ghost var masks := events[..];
      AddAgrees(backend, masks, kernel, fd, mask, fails);
      RaiseMax(masks, maxfd, fd, mask);
      if events[fd] != NONE { UsedBelow(masks, maxfd, fd); }
      var (k, added) := ApiAddEvent(backend, kernel, fd, events[fd], mask, fails);
      kernel := k;
      if !added { return false; }
      events[fd] := Union(events[fd], mask);
      assert events[..] == masks[fd := Union(masks[fd], mask)];
      if fd > maxfd { maxfd := fd; }
      ok := true;
    }

    /** aeDeleteFileEvent: the barrier goes with the write event. */
    method DeleteFileEvent(fd: nat, mask: Mask, fails: bool)
      requires Valid()
      modifies this, events
      ensures events == old(events) && MaxOk(events[..], maxfd) && (!fails || backend == Select ==> Valid())
      ensures events[..] ==
        if fd < events.Length then old(events[..])[fd := Minus(old(events[..])[fd], Deleted(mask))]
        else old(events[..])
      ensures fd < events.Length ==>
        var was := old(events[..])[fd];
        events[fd] == Mask(was.readable && !mask.readable, was.writable && !mask.writable,
                           was.barrier && !mask.barrier && !mask.writable)
    {
      hide MaxOk, KernelOk;
      if fd >= events.Length { return; }
      ghost var masks := events[..];
      if events[fd] == NONE {
        assert events[..] == masks[fd := Minus(masks[fd], Deleted(mask))];
        return;
      }
      var m := Deleted(mask);
      if !fails || backend == Select { DelAgrees(backend, masks, kernel, fd, m, fails); }
      KeepMax(masks, maxfd, fd, Minus(masks[fd], m));
      kernel := ApiDelEvent(backend, kernel, fd, events[fd], m, fails);
      events[fd] := Minus(events[fd], m);
      assert events[..] == masks[fd := Minus(masks[fd], m)];
      if fd == maxfd && events[fd] == NONE {
        LowerMaxfd();
      }
    }

    /** The greatest descriptor in use is searched downwards. */
    method LowerMaxfd()
      requires 0 <= maxfd < events.Length && events[maxfd] == NONE && NothingAbove(events[..], maxfd)
      modifies `maxfd
      ensures MaxOk(events[..], maxfd)
    {
      var j := maxfd - 1;
      while j >= 0
        modifies {}
        invariant -1 <= j < maxfd && NothingAbove(events[..], j)
      {
        assert MaskAt(events[..], j) == events[j];
        if events[j] != NONE { break; }
        j := j - 1;
      }
      maxfd := j;
    }

    /** aeResizeSetSize: refused if a descriptor in use would be cut off, or select cannot hold so many. */
    method ResizeSetSize(setsize: nat) returns (ok: bool)
      requires Valid()
      modifies this
      ensures Valid() && maxfd == old(maxfd) && (events == old(events) || fresh(events))
      ensures ok == (setsize == old(events.Length) || (maxfd < setsize && (backend == Select ==> setsize < FD_SETSIZE)))
      ensures events.Length == (if ok then setsize else old(events.Length))
      ensures forall fd: nat :: MaskAt(events[..], fd) == MaskAt(old(events[..]), fd)
    {
      hide MaxOk, KernelOk;
      ghost var masks := events[..];
      MaxBounds(masks, maxfd);
      if setsize == events.Length { return true; }
      if maxfd >= setsize { return false; }
      if backend == Select && setsize >= FD_SETSIZE { return false; }
      var a := new Mask[setsize];
      forall i | 0 <= i < Min(setsize, events.Length) { a[i] := events[i]; }
      for i := maxfd + 1 to setsize
        modifies a
        invariant forall k :: 0 <= k <= maxfd ==> a[k] == masks[k]
        invariant forall k :: maxfd < k < i ==> a[k] == NONE
      {
        a[i] := NONE;
      }
      Reallocated(masks, a[..], maxfd);
      SameTable(backend, masks, a[..], maxfd, kernel);
      events := a;
      ok := true;
    }
  }

  lemma MaxBounds(masks: seq<Mask>, maxfd: int)
    requires MaxOk(masks, maxfd)
    ensures -1 <= maxfd < |masks|
  {
  }

  lemma SameTable(backend: Backend, masks: seq<Mask>, masks': seq<Mask>, maxfd: int, k: Kernel)
    requires MaxOk(masks, maxfd) && KernelOk(backend, masks, k) && maxfd < |masks'|
    requires forall fd: nat :: MaskAt(masks', fd) == MaskAt(masks, fd)
    ensures MaxOk(masks', maxfd) && KernelOk(backend, masks', k)
  {
  }

  lemma UsedBelow(masks: seq<Mask>, maxfd: int, fd: nat)
    requires MaxOk(masks, maxfd) && fd < |masks| && masks[fd] != NONE
    ensures fd <= maxfd
  {
    assert MaskAt(masks, fd) != NONE;
  }

  lemma Reallocated(masks: seq<Mask>, masks': seq<Mask>, maxfd: int)
    requires MaxOk(masks, maxfd) && maxfd < |masks'|
    requires forall k :: 0 <= k <= maxfd ==> masks'[k] == masks[k]
    requires forall k :: maxfd < k < |masks'| ==> masks'[k] == NONE
    ensures forall fd: nat :: MaskAt(masks', fd) == MaskAt(masks, fd)
  {
    forall fd: nat
      ensures MaskAt(masks', fd) == MaskAt(masks, fd)
    {
      if fd > maxfd {
        assert MaskAt(masks, fd) == NONE;
      }
    }
  }

  function Deleted(mask: Mask): Mask {
    if mask.writable then mask.(barrier := true) else mask
  }

  /** Registering nothing for an unused descriptor: the kernel watches it, maxfd names it, and the table says it is
      unused. */
  method RegisterNothing() returns (loop: AeEventLoop)
    ensures fresh(loop) && !loop.Valid()
    ensures loop.maxfd == 3 && 3 < loop.events.Length && loop.events[3] == NONE && 3 in loop.kernel.epoll
  {
    loop := new AeEventLoop(Epoll, 8);
    NothingRegistered(loop.events[..], 3);
    var ok := loop.CreateFileEvent(3, NONE, false);
  }

  lemma NothingRegistered(masks: seq<Mask>, fd: nat)
    requires MaxOk(masks, -1) && fd < |masks|
    ensures masks[fd] == NONE
  {
    assert MaskAt(masks, fd) == NONE;
  }
}
