/** Small definitions shared by the models of the individual components. */
module Prelude {

  datatype Option<+T> = None | Some(value: T)

  /** An octet of a file, a pipe or a string. */
  type byte = b: int | 0 <= b < 256

  function Max(a: int, b: int): int {
    if a < b then b else a
  }

  function Min(a: int, b: int): int {
    if a < b then a else b
  }

  ghost predicate Distinct<T>(s: seq<T>) {
    forall i, j :: 0 <= i < j < |s| ==> s[i] != s[j]
  }

  lemma CountWithout<T>(s: set<T>, x: T)
    ensures |s| == |s - {x}| + if x in s then 1 else 0
  {
    if x !in s {
      assert s - {x} == s;
    }
  }

  /** A subset has at most as many elements, and as many only when it is the whole set. */
  lemma SubsetCardinality<T>(a: set<T>, b: set<T>)
    requires a <= b
    ensures |a| <= |b|
    ensures |a| == |b| ==> a == b
  {
    assert b == a + (b - a);
  }
}
