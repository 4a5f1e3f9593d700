/** Keeping the first occurrence of every element, in order: what a Kotlin LinkedHashSet
    built by `add` holds, and what FacesHandler.getUniqueRectangleVertices returns. */
module Unique {

  /** The elements of `s` at their first occurrences, in the order of `s`. */
  function Dedup<T(==)>(s: seq<T>): (unique: seq<T>)
    decreases |s|
  {
    if s == [] then []
    else
      var r := Dedup(s[..|s| - 1]);
      if s[|s| - 1] in r then r else r + [s[|s| - 1]]
  }

  ghost predicate NoDuplicates<T>(s: seq<T>) {
    forall i, j | 0 <= i < j < |s| :: s[i] != s[j]
  }

  /** Index of the first occurrence of `x` in `s`. */
  function FirstIndex<T(==)>(s: seq<T>, x: T): (k: nat)
    requires x in s
    ensures k < |s| && s[k] == x && x !in s[..k]
  {
    if s[0] == x then 0 else
      assert x in s[1..];
      1 + FirstIndex(s[1..], x)
  }

  /** No two outputs are equal, the output holds exactly the input's elements, is no
      longer than the input, and lists them in order of first occurrence. */
  lemma {:induction false} DedupSpec<T>(s: seq<T>)
    ensures NoDuplicates(Dedup(s))
    ensures forall x | x in Dedup(s) :: x in s
    ensures forall x | x in s :: x in Dedup(s)
    ensures |Dedup(s)| <= |s|
    ensures forall i, j | 0 <= i < j < |Dedup(s)| :: FirstIndex(s, Dedup(s)[i]) < FirstIndex(s, Dedup(s)[j])
    decreases |s|
  {
    if s != [] {
      var n := |s| - 1;
      var p := s[..n];
      DedupSpec(p);
      var r := Dedup(p);
      assert s == p + [s[n]];
      forall x | x in p ensures FirstIndex(s, x) == FirstIndex(p, x) {
        FirstIndexPrefix(p, s[n], x);
      }
      if s[n] !in r {
        assert s[n] !in p;
        FirstIndexLast(p, s[n]);
        forall i | 0 <= i < |r| ensures FirstIndex(s, r[i]) < FirstIndex(s, s[n]) {
          assert r[i] in r;
        }
      }
    }
  }

  /** A sequence without repeats is its own deduplication (Iterable.distinct on a set). */
  lemma {:induction false} DedupDistinct<T>(s: seq<T>)
    requires NoDuplicates(s)
    ensures Dedup(s) == s
    decreases |s|
  {
    if s != [] {
      var n := |s| - 1;
      var p := s[..n];
      DedupDistinct(p);
      DedupSpec(p);
      assert s[n] !in p;
      assert s == p + [s[n]];
    }
  }

  /** The first occurrence is the only position that holds `x` with no `x` before it. */
  lemma FirstIndexUnique<T>(s: seq<T>, x: T, k: nat)
    requires k < |s| && s[k] == x && x !in s[..k]
    ensures FirstIndex(s, x) == k
  {
    var k' := FirstIndex(s, x);
    forall i | 0 <= i < k ensures s[i] != x {
      assert s[..k][i] == s[i];
    }
    forall i | 0 <= i < k' ensures s[i] != x {
      assert s[..k'][i] == s[i];
    }
  }

  lemma FirstIndexPrefix<T>(p: seq<T>, y: T, x: T)
    requires x in p
    ensures FirstIndex(p + [y], x) == FirstIndex(p, x)
  {
    var k := FirstIndex(p, x);
    assert (p + [y])[..k] == p[..k];
    FirstIndexUnique(p + [y], x, k);
  }

  lemma FirstIndexLast<T>(p: seq<T>, y: T)
    requires y !in p
    ensures FirstIndex(p + [y], y) == |p|
  {
    assert (p + [y])[..|p|] == p;
    FirstIndexUnique(p + [y], y, |p|);
  }

  /** f applied to every element of s, in order. */
  function Map<A, B>(s: seq<A>, f: A -> B): (r: seq<B>)
    ensures |r| == |s|
    ensures forall i | 0 <= i < |s| :: r[i] == f(s[i])
  {
    seq(|s|, i requires 0 <= i < |s| => f(s[i]))
  }

  /** Mapping can only merge elements: the image has no more distinct values than the
      original. */
  lemma {:induction false} DedupMapBound<A, B>(s: seq<A>, f: A -> B)
    ensures |Dedup(Map(s, f))| <= |Dedup(s)|
    decreases |s|
  {
    if s != [] {
      var n := |s| - 1;
      var p, m := s[..n], Map(s, f);
      assert m[..n] == Map(p, f);
      DedupMapBound(p, f);
      DedupSpec(p);
      DedupSpec(m[..n]);
      if s[n] in Dedup(p) {
        var k :| 0 <= k < n && p[k] == s[n];
        assert m[..n][k] == m[n];
      }
    }
  }

  /** When f keeps different elements apart, deduplicating the image is deduplicating
      first and mapping afterwards. */
  lemma {:induction false} DedupMapInjective<A, B>(s: seq<A>, f: A -> B)
    requires forall x, y | x in s && y in s && f(x) == f(y) :: x == y
    ensures Dedup(Map(s, f)) == Map(Dedup(s), f)
    decreases |s|
  {
    if s != [] {
      var n := |s| - 1;
      var p, m := s[..n], Map(s, f);
      assert m[..n] == Map(p, f);
      DedupMapInjective(p, f);
      DedupSpec(p);
      var r := Dedup(p);
      if s[n] in r {
        var k :| 0 <= k < n && p[k] == s[n];
        assert m[..n][k] == m[n];
        DedupSpec(m[..n]);
      } else {
        forall k | 0 <= k < |r| ensures Map(r, f)[k] != m[n] {
          assert r[k] in r;
        }
        assert Map(r + [s[n]], f) == Map(r, f) + [m[n]];
      }
    }
  }

  /** The source's loop: append an element unless an equal one is already kept. */
  method UniqueInOrder<T(==)>(s: seq<T>) returns (unique: seq<T>)
    ensures unique == Dedup(s)
  {
    unique := [];
    for i := 0 to |s|
      invariant unique == Dedup(s[..i])
    {
      assert s[..i + 1][..i] == s[..i];
      if s[i] !in unique {
        unique := unique + [s[i]];
      }
    }
    assert s[..|s|] == s;
  }

  /** The same loop over a list that has no repeats: it hands back the list unchanged. */
  method UniqueOfDistinct<T(==)>(s: seq<T>) returns (unique: seq<T>)
    requires NoDuplicates(s)
    ensures unique == s
  {
    unique := UniqueInOrder(s);
    DedupDistinct(s);
  }
}
