/**
 Small shared vocabulary: an optional value, dictionary lookup with a
 default (Python's `dict.get(key, default)`), integer minimum, powers of two
 and duplicate-free sequences (the scripts use Python lists as sets).
 */
module Basics {

  datatype Option<+T> = None | Some(value: T)

  /** `m.get(k, d)`: the stored value, or `d` when `k` was never stored. */
  function Get<K, V>(m: map<K, V>, k: K, d: V): V
  {
    if k in m then m[k] else d
  }

  /** Python's built-in `min` on two integers. */
  function Min(a: int, b: int): int
  {
    if a <= b then a else b
  }

  function Pow2(k: nat): nat
  {
    if k == 0 then 1 else 2 * Pow2(k - 1)
  }

  /** No element occurs twice. */
  predicate NoDup<T(==)>(s: seq<T>)
  {
    forall i, j :: 0 <= i < j < |s| ==> s[i] != s[j]
  }

  /** Concatenation regroups freely. */
  lemma AppendAssoc<T>(a: seq<T>, b: seq<T>, c: seq<T>)
    ensures a + (b + c) == (a + b) + c
  {
  }

  /** Appending elements that are pairwise distinct and new keeps a list duplicate-free. */
  lemma NoDupAppend<T>(a: seq<T>, b: seq<T>)
    requires NoDup(a) && NoDup(b)
    requires forall x :: x in b ==> x !in a
    ensures NoDup(a + b)
  {
    forall i, j | 0 <= i < j < |a + b|
      ensures (a + b)[i] != (a + b)[j]
    {
      if j >= |a| && i < |a| {
        assert (a + b)[j] == b[j - |a|];
        assert b[j - |a|] in b;
      }
    }
  }
}
