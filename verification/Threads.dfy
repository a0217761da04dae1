/** Counting the threads that are at certain points of a program. */
module Threads {
  import opened Prelude

  function At<T, P>(threads: map<T, P>, f: P -> bool): set<T> {
    set t <- threads | f(threads[t])
  }

  function One(b: bool): nat {
    if b then 1 else 0
  }

  /** When one thread moves on, the count changes by what changed for it. */
  lemma CountMove<T, P>(threads: map<T, P>, f: P -> bool, t: T, p: P)
    requires t in threads
    ensures |At(threads[t := p], f)| == |At(threads, f)| + One(f(p)) - One(f(threads[t]))
  {
    var before, after := At(threads, f), At(threads[t := p], f);
    assert (t in before <==> f(threads[t])) && (t in after <==> f(p));
    assert after - {t} == before - {t};
    CountWithout(before, t);
    CountWithout(after, t);
  }

  lemma CountSome<T, P>(threads: map<T, P>, f: P -> bool, t: T)
    requires t in threads && f(threads[t])
    ensures |At(threads, f)| >= 1
  {
    assert t in At(threads, f);
    assert At(threads, f) == {t} + (At(threads, f) - {t});
  }

  lemma CountNone<T, P>(threads: map<T, P>, f: P -> bool)
    requires forall t <- threads :: !f(threads[t])
    ensures |At(threads, f)| == 0
  {
    assert At(threads, f) == {};
  }
}
