/** Directed walks over a set of edges, and cutting a walk down to a simple path. */
module Walks {
  predicate IsWalk<T(==)>(edges: set<(T, T)>, w: seq<T>) {
    w != [] && forall k :: 0 < k < |w| ==> (w[k - 1], w[k]) in edges
  }

  predicate IsSimple<T(==)>(w: seq<T>) {
    forall i, j :: 0 <= i < j < |w| ==> w[i] != w[j]
  }

  ghost predicate Connects<T(!new)>(edges: set<(T, T)>, w: seq<T>, from: T, to: T, maxHops: nat) {
    IsWalk(edges, w) && w[0] == from && w[|w| - 1] == to && |w| <= maxHops + 1
  }

  /** A walk of at most maxHops edges leads from one node to the other. */
  ghost predicate Reaches<T(!new)>(edges: set<(T, T)>, from: T, to: T, maxHops: nat) {
    exists w :: Connects(edges, w, from, to, maxHops)
  }

  lemma {:induction false} SimplePathFromWalk<T(!new)>(edges: set<(T, T)>, w: seq<T>, from: T, to: T, maxHops: nat)
    returns (p: seq<T>)
    requires Connects(edges, w, from, to, maxHops)
    ensures Connects(edges, p, from, to, maxHops) && IsSimple(p)
    decreases |w|
  {
    if i, j :| 0 <= i < j < |w| && w[i] == w[j] {
      var cut := w[..i] + w[j..];
      forall k | 0 < k < |cut| ensures (cut[k - 1], cut[k]) in edges {
        if k < i {
          assert (w[k - 1], w[k]) in edges;
        } else if k == i {
          assert cut[k] == w[j] == w[i];
          assert (w[i - 1], w[i]) in edges;
        } else {
          assert (w[k - i + j - 1], w[k - i + j]) in edges;
        }
      }
      p := SimplePathFromWalk(edges, cut, from, to, maxHops);
    } else {
      p := w;
    }
  }
}
