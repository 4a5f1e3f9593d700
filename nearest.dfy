/** The selection rule every picking loop of the editor follows: scan the candidates in
    order, keep a candidate only when its squared distance is strictly smaller than the
    best so far. The first of several equally near candidates therefore wins. */
module Selection {
  import opened Geometry

  /** A hit: its squared distance from the ray origin and what the caller keeps of it. */
  datatype Candidate<T> = Candidate(dist: real, item: T)

  /** One loop step: `if (dist < minDist) { minDist = dist; keep = item }`. */
  function Improve<T>(best: Option<Candidate<T>>, c: Option<Candidate<T>>): Option<Candidate<T>> {
    if c.Some? && (best.None? || c.value.dist < best.value.dist) then c else best
  }

  /** The result of the scan over `cs`, from an empty best (Float.MAX_VALUE in the source). */
  function Nearest<T>(cs: seq<Option<Candidate<T>>>): Option<Candidate<T>>
    decreases |cs|
  {
    if cs == [] then None else Improve(Nearest(cs[..|cs| - 1]), cs[|cs| - 1])
  }

  /** Candidate k is a hit, no hit is nearer, and every earlier hit is strictly farther. */
  ghost predicate IsFirstNearest<T>(cs: seq<Option<Candidate<T>>>, k: int) {
    && 0 <= k < |cs| && cs[k].Some?
    && (forall j | 0 <= j < |cs| && cs[j].Some? :: cs[k].value.dist <= cs[j].value.dist)
    && (forall j | 0 <= j < k && cs[j].Some? :: cs[k].value.dist < cs[j].value.dist)
  }

  /** The scan finds nothing exactly when no candidate is a hit; otherwise it returns the
      first nearest hit. */
  lemma {:induction false} NearestIsFirstNearest<T>(cs: seq<Option<Candidate<T>>>)
    ensures Nearest(cs).None? <==> forall j | 0 <= j < |cs| :: cs[j].None?
    ensures Nearest(cs).Some? ==> exists k :: IsFirstNearest(cs, k) && Nearest(cs) == cs[k]
    decreases |cs|
  {
    if cs != [] {
      var n := |cs| - 1;
      var prefix := cs[..n];
      NearestIsFirstNearest(prefix);
      assert forall j | 0 <= j < n :: prefix[j] == cs[j];
      var c := cs[n];
      var best := Nearest(prefix);
      if c.Some? && (best.None? || c.value.dist < best.value.dist) {
        assert IsFirstNearest(cs, n);
      } else if best.Some? {
        var k :| IsFirstNearest(prefix, k) && best == prefix[k];
        assert IsFirstNearest(cs, k);
      }
    }
  }

  /** There is at most one first nearest candidate, so the characterisation determines the scan. */
  lemma FirstNearestUnique<T>(cs: seq<Option<Candidate<T>>>, k1: int, k2: int)
    requires IsFirstNearest(cs, k1) && IsFirstNearest(cs, k2)
    ensures k1 == k2
  {
  }

  /** The scan of a single candidate is that candidate. */
  lemma NearestOfOne<T>(c: Option<Candidate<T>>)
    ensures Nearest([c]) == c
  {
    assert [c][..0] == [];
  }

  /** Extending the scan by one candidate is one loop step. */
  lemma NearestSnoc<T>(cs: seq<Option<Candidate<T>>>, c: Option<Candidate<T>>)
    ensures Nearest(cs + [c]) == Improve(Nearest(cs), c)
  {
    assert (cs + [c])[..|cs|] == cs;
  }

  /** One step of a scan that continues an earlier one: the first t + 1 candidates of
      `cs` after those of `before`. */
  lemma NearestStep<T>(before: seq<Option<Candidate<T>>>, cs: seq<Option<Candidate<T>>>, t: nat)
    requires t < |cs|
    ensures Nearest(before + cs[..t + 1]) == Improve(Nearest(before + cs[..t]), cs[t])
  {
    assert before + cs[..t + 1] == (before + cs[..t]) + [cs[t]];
    NearestSnoc(before + cs[..t], cs[t]);
  }

  /** A ray test's outcome as a candidate: the squared distance from the ray origin to
      the point found, and what the caller keeps of it. */
  function HitCandidate<T>(origin: Vec3, hit: Option<Vec3>, item: T): (c: Option<Candidate<T>>)
    ensures c.Some? <==> hit.Some?
    ensures hit.Some? ==> c.value.dist == Dst2(origin, hit.value) && c.value.item == item
  {
    if hit.Some? then Some(Candidate(Dst2(origin, hit.value), item)) else None
  }

  /** The body every picking loop shares: when the test found a point, measure its
      squared distance and keep it only if strictly nearer than the best so far. */
  method KeepNearer<T>(closest: Option<Candidate<T>>, origin: Vec3, hit: Option<Vec3>, item: T)
    returns (next: Option<Candidate<T>>)
    ensures next == Improve(closest, HitCandidate(origin, hit, item))
  {
    next := closest;
    if hit.Some? {
      var dist := Dst2(origin, hit.value);
      if closest.None? || dist < closest.value.dist {
        next := Some(Candidate(dist, item));
      }
    }
  }
}
