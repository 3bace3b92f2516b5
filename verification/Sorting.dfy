/** Sorting by score, highest first, as a stable insertion sort does it. */
module Sorting {
  datatype Scored<D> = Scored(score: real, item: D)

  /** Moves x left past every smaller score. */
  function Insert<D>(s: seq<Scored<D>>, x: Scored<D>): seq<Scored<D>> {
    if s == [] || s[|s| - 1].score >= x.score then s + [x]
    else Insert(s[..|s| - 1], x) + [s[|s| - 1]]
  }

  function SortDesc<D>(s: seq<Scored<D>>): seq<Scored<D>> {
    if s == [] then [] else Insert(SortDesc(s[..|s| - 1]), s[|s| - 1])
  }

  predicate IsDesc<D>(s: seq<Scored<D>>) {
    forall i, j :: 0 <= i < j < |s| ==> s[i].score >= s[j].score
  }

  /** The results with one given score, in order: what a stable sort keeps. */
  function WithScore<D>(s: seq<Scored<D>>, v: real): seq<Scored<D>> {
    if s == [] then []
    else WithScore(s[..|s| - 1], v) + if s[|s| - 1].score == v then [s[|s| - 1]] else []
  }

  function CountAtLeast<D>(s: seq<Scored<D>>, v: real): nat {
    if s == [] then 0 else CountAtLeast(s[..|s| - 1], v) + if s[|s| - 1].score >= v then 1 else 0
  }

  lemma {:induction false} InsertContents<D>(s: seq<Scored<D>>, x: Scored<D>)
    ensures |Insert(s, x)| == |s| + 1
    ensures multiset(Insert(s, x)) == multiset(s) + multiset{x}
  {
    if s != [] && !(s[|s| - 1].score >= x.score) {
      InsertContents(s[..|s| - 1], x);
      assert s == s[..|s| - 1] + [s[|s| - 1]];
    }
  }

  lemma {:induction false} InsertCount<D>(s: seq<Scored<D>>, x: Scored<D>, v: real)
    ensures CountAtLeast(Insert(s, x), v) == CountAtLeast(s, v) + if x.score >= v then 1 else 0
  {
    var r := Insert(s, x);
    if s == [] || s[|s| - 1].score >= x.score {
      assert r[..|s|] == s;
    } else {
      InsertCount(s[..|s| - 1], x, v);
      assert r[..|r| - 1] == Insert(s[..|s| - 1], x);
    }
  }

  lemma {:induction false} InsertKeepsOrder<D>(s: seq<Scored<D>>, x: Scored<D>)
    requires IsDesc(s)
    ensures IsDesc(Insert(s, x))
  {
    if s != [] && !(s[|s| - 1].score >= x.score) {
      var n := |s| - 1;
      InsertKeepsOrder(s[..n], x);
      InsertBelow(s[..n], x, s[n].score);
    }
  }

  lemma {:induction false} InsertBelow<D>(s: seq<Scored<D>>, x: Scored<D>, v: real)
    requires x.score >= v && forall i :: 0 <= i < |s| ==> s[i].score >= v
    ensures forall i :: 0 <= i < |Insert(s, x)| ==> Insert(s, x)[i].score >= v
  {
    if s != [] && !(s[|s| - 1].score >= x.score) { InsertBelow(s[..|s| - 1], x, v); }
  }

  function Only<D>(x: Scored<D>, v: real): seq<Scored<D>> {
    if x.score == v then [x] else []
  }

  lemma WithScoreSnoc<D>(s: seq<Scored<D>>, x: Scored<D>, v: real)
    ensures WithScore(s + [x], v) == WithScore(s, v) + Only(x, v)
  {
    assert (s + [x])[..|s|] == s;
  }

  lemma OnlyOne<D>(w: seq<Scored<D>>, x: Scored<D>, y: Scored<D>, v: real)
    requires x.score != y.score
    ensures w + Only(x, v) + Only(y, v) == w + Only(y, v) + Only(x, v)
  {}

  /** Equal scores keep their order: x goes behind all of its equals. */
  lemma {:induction false} InsertStable<D>(s: seq<Scored<D>>, x: Scored<D>, v: real)
    ensures WithScore(Insert(s, x), v) == WithScore(s, v) + Only(x, v)
  {
    if s == [] || s[|s| - 1].score >= x.score {
      WithScoreSnoc(s, x, v);
    } else {
      var n := |s| - 1;
      InsertStable(s[..n], x, v);
      WithScoreSnoc(Insert(s[..n], x), s[n], v);
      OnlyOne(WithScore(s[..n], v), x, s[n], v);
    }
  }

  lemma {:induction false} SortDescPermutes<D>(s: seq<Scored<D>>)
    ensures multiset(SortDesc(s)) == multiset(s) && |SortDesc(s)| == |s| && IsDesc(SortDesc(s))
  {
    if s != [] {
      var n := |s| - 1;
      SortDescPermutes(s[..n]);
      InsertContents(SortDesc(s[..n]), s[n]);
      InsertKeepsOrder(SortDesc(s[..n]), s[n]);
      assert s == s[..n] + [s[n]];
    }
  }

  lemma {:induction false} SortDescKeepsScore<D>(s: seq<Scored<D>>, v: real)
    ensures WithScore(SortDesc(s), v) == WithScore(s, v) && CountAtLeast(SortDesc(s), v) == CountAtLeast(s, v)
  {
    if s != [] {
      var n := |s| - 1;
      SortDescKeepsScore(s[..n], v);
      InsertStable(SortDesc(s[..n]), s[n], v);
      InsertCount(SortDesc(s[..n]), s[n], v);
    }
  }

  /** The sort is a stable descending permutation. */
  lemma SortDescFacts<D>(s: seq<Scored<D>>)
    ensures multiset(SortDesc(s)) == multiset(s) && |SortDesc(s)| == |s|
    ensures IsDesc(SortDesc(s))
    ensures forall v :: WithScore(SortDesc(s), v) == WithScore(s, v)
    ensures forall v :: CountAtLeast(SortDesc(s), v) == CountAtLeast(s, v)
  {
    SortDescPermutes(s);
    forall v ensures WithScore(SortDesc(s), v) == WithScore(s, v) && CountAtLeast(SortDesc(s), v) == CountAtLeast(s, v) {
      SortDescKeepsScore(s, v);
    }
  }

  lemma {:induction false} WithScoreOfHigher<D>(s: seq<Scored<D>>, v: real)
    requires forall i :: 0 <= i < |s| ==> s[i].score > v
    ensures WithScore(s, v) == []
  {
    if s != [] { WithScoreOfHigher(s[..|s| - 1], v); }
  }

  lemma {:induction false} LastOfScore<D>(s: seq<Scored<D>>, v: real)
    requires IsDesc(s) && WithScore(s, v) != [] && forall w :: w < v ==> WithScore(s, w) == []
    ensures s != [] && s[|s| - 1] == WithScore(s, v)[|WithScore(s, v)| - 1]
  {
    var n := |s| - 1;
    assert WithScore(s, s[n].score) != [];
    if s[n].score > v {
      forall i | 0 <= i < |s| ensures s[i].score > v {
        assert s[i].score >= s[n].score;
      }
      WithScoreOfHigher(s, v);
    }
  }

  lemma CutTail<D>(a: seq<Scored<D>>, b: seq<Scored<D>>, t: seq<Scored<D>>)
    requires a + t == b + t
    ensures a == b
  {
    assert |a + t| == |b + t|;
    assert a == (a + t)[..|a|] == (b + t)[..|b|] == b;
  }

  /** These properties leave no choice: two descending sequences that list every
      score's results in the same order are equal. */
  lemma {:induction false} StableOrderIsUnique<D>(a: seq<Scored<D>>, b: seq<Scored<D>>)
    requires IsDesc(a) && IsDesc(b) && forall v :: WithScore(a, v) == WithScore(b, v)
    ensures a == b
    decreases |a|
  {
    if a == [] {
      assert b != [] ==> WithScore(b, b[|b| - 1].score) != WithScore(a, b[|b| - 1].score);
    } else {
      var n, v := |a| - 1, a[|a| - 1].score;
      assert WithScore(a, v) != [];
      forall w | w < v ensures WithScore(b, w) == [] {
        forall i | 0 <= i < |a| ensures a[i].score > w {
          assert a[i].score >= a[n].score;
        }
        WithScoreOfHigher(a, w);
        assert WithScore(a, w) == WithScore(b, w);
      }
      assert WithScore(a, v) == WithScore(b, v);
      LastOfScore(b, v);
      var m := |b| - 1;
      assert b[m] == a[n];
      forall w ensures WithScore(a[..n], w) == WithScore(b[..m], w) {
        assert WithScore(a, w) == WithScore(b, w);
        CutTail(WithScore(a[..n], w), WithScore(b[..m], w), if a[n].score == w then [a[n]] else []);
      }
      StableOrderIsUnique(a[..n], b[..m]);
      assert a == a[..n] + [a[n]] && b == b[..m] + [b[m]];
    }
  }
}
