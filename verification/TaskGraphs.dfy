/** The task graph a planner hands to the orchestrator, and the order theory
    behind it: which tasks can ever be completed, and when that is all of them. */
module TaskGraphs {
  import opened Sets

  type TaskId = string

  datatype Task = Task(id: TaskId, deps: seq<TaskId>)

  type Graph = seq<Task>

  function Ids(g: Graph): set<TaskId> {
    set i | 0 <= i < |g| :: g[i].id
  }

  predicate UniqueIds(g: Graph) {
    forall i, j :: 0 <= i < j < |g| ==> g[i].id != g[j].id
  }

  predicate DepsExist(g: Graph) {
    forall i :: 0 <= i < |g| ==> forall d :: d in g[i].deps ==> d in Ids(g)
  }

  /** A chain lists task positions, each depending on the next one. */
  predicate IsChain(g: Graph, c: seq<nat>) {
    && (forall k :: 0 <= k < |c| ==> c[k] < |g|)
    && (forall k :: 0 < k < |c| ==> g[c[k]].id in g[c[k - 1]].deps)
  }

  ghost predicate Acyclic(g: Graph) {
    forall c :: IsChain(g, c) && 2 <= |c| ==> c[0] != c[|c| - 1]
  }

  ghost predicate WellFormed(g: Graph) {
    UniqueIds(g) && DepsExist(g) && Acyclic(g)
  }

  predicate DepsWithin(t: Task, done: set<TaskId>) {
    forall d :: d in t.deps ==> d in done
  }

  /** The IDs whose dependencies all lie in `done`. */
  function Unlocked(g: Graph, done: set<TaskId>): set<TaskId> {
    set i | 0 <= i < |g| && DepsWithin(g[i], done) :: g[i].id
  }

  function Stage(g: Graph, n: nat): set<TaskId> {
    if n == 0 then {} else Unlocked(g, Stage(g, n - 1))
  }

  /** What can be completed at all. That |g| stages suffice is proved below. */
  function Completable(g: Graph): set<TaskId> {
    Stage(g, |g|)
  }

  lemma UnlockedMonotone(g: Graph, a: set<TaskId>, b: set<TaskId>)
    requires a <= b
    ensures Unlocked(g, a) <= Unlocked(g, b)
  {
    forall id | id in Unlocked(g, a) ensures id in Unlocked(g, b) {
      var i :| 0 <= i < |g| && DepsWithin(g[i], a) && g[i].id == id;
      assert DepsWithin(g[i], b);
    }
  }

  lemma {:induction false} StageMonotone(g: Graph, m: nat, n: nat)
    requires m <= n
    ensures Stage(g, m) <= Stage(g, n)
    decreases n
  {
    if m > 0 {
      StageMonotone(g, m - 1, n - 1);
      UnlockedMonotone(g, Stage(g, m - 1), Stage(g, n - 1));
    }
  }

  lemma IdsSnoc(h: Graph, t: Task)
    ensures Ids(h + [t]) == Ids(h) + {t.id}
  {
    var g := h + [t];
    forall id | id in Ids(g) ensures id in Ids(h) + {t.id} {
      var i :| 0 <= i < |g| && g[i].id == id;
      assert i < |h| ==> h[i].id == id;
    }
    forall id | id in Ids(h) + {t.id} ensures id in Ids(g) {
      if i :| 0 <= i < |h| && h[i].id == id {
        assert g[i].id == id;
      } else {
        assert g[|h|].id == id;
      }
    }
  }

  lemma UniqueIdsSnoc(h: Graph, t: Task)
    ensures UniqueIds(h + [t]) <==> UniqueIds(h) && t.id !in Ids(h)
  {
    var g := h + [t];
    assert forall i :: 0 <= i < |h| ==> g[i] == h[i];
    if UniqueIds(g) {
      forall i, j | 0 <= i < j < |h| ensures h[i].id != h[j].id {
        assert g[i].id != g[j].id;
      }
      forall i | 0 <= i < |h| ensures h[i].id != t.id {
        assert g[i].id != g[|h|].id;
      }
    }
    if UniqueIds(h) && t.id !in Ids(h) {
      forall i, j | 0 <= i < j < |g| ensures g[i].id != g[j].id {
        assert g[i].id == h[i].id && h[i].id in Ids(h);
        if j < |h| { assert h[i].id != h[j].id; }
      }
    }
  }

  lemma {:induction false} IdsCardinality(g: Graph)
    ensures |Ids(g)| <= |g|
    ensures |Ids(g)| == |g| <==> UniqueIds(g)
  {
    if g != [] {
      var n := |g| - 1;
      assert g == g[..n] + [g[n]];
      IdsCardinality(g[..n]);
      IdsSnoc(g[..n], g[n]);
      UniqueIdsSnoc(g[..n], g[n]);
    }
  }

  lemma {:induction false} StageStable(g: Graph, m: nat, n: nat)
    requires m <= n && Stage(g, m) == Stage(g, m + 1)
    ensures Stage(g, n) == Stage(g, m)
    decreases n
  {
    if m < n { StageStable(g, m, n - 1); }
  }

  predicate StageChanges(g: Graph, m: nat) {
    Stage(g, m) != Stage(g, m + 1)
  }

  lemma StageGrowsByOne(g: Graph, m: nat)
    requires StageChanges(g, m)
    ensures |Stage(g, m)| < |Stage(g, m + 1)|
  {
    StageMonotone(g, m, m + 1);
    SubsetCardinality(Stage(g, m), Stage(g, m + 1));
  }

  lemma {:induction false} StageGrows(g: Graph, n: nat)
    requires forall m :: 0 <= m < n ==> StageChanges(g, m)
    ensures n <= |Stage(g, n)|
  {
    if n > 0 {
      StageGrows(g, n - 1);
      StageGrowsByOne(g, n - 1);
    }
  }

  /** Completable is the least set closed under "all my dependencies are completed". */
  lemma {:induction false} CompletableIsLeastFixedPoint(g: Graph)
    ensures Unlocked(g, Completable(g)) == Completable(g)
    ensures Completable(g) <= Ids(g)
    ensures forall s: set<TaskId> :: Unlocked(g, s) <= s ==> Completable(g) <= s
  {
    var n := |g|;
    if Stage(g, n) != Stage(g, n + 1) {
      forall m | 0 <= m < n + 1 ensures StageChanges(g, m) {
        if !StageChanges(g, m) {
          StageStable(g, m, n);
          StageStable(g, m, n + 1);
        }
      }
      StageGrows(g, n + 1);
      SubsetCardinality(Stage(g, n + 1), Ids(g));
      IdsCardinality(g);
    }
    forall s | Unlocked(g, s) <= s ensures Completable(g) <= s {
      StageBelowClosed(g, n, s);
    }
  }

  lemma {:induction false} StageBelowClosed(g: Graph, n: nat, s: set<TaskId>)
    requires Unlocked(g, s) <= s
    ensures Stage(g, n) <= s
  {
    if n > 0 {
      StageBelowClosed(g, n - 1, s);
      UnlockedMonotone(g, Stage(g, n - 1), s);
    }
  }

  lemma ChainPrepend(g: Graph, i: nat, c: seq<nat>)
    requires i < |g| && IsChain(g, c) && c != [] && g[c[0]].id in g[i].deps
    ensures IsChain(g, [i] + c)
  {
    var s := [i] + c;
    forall k | 0 < k < |s| ensures g[s[k]].id in g[s[k - 1]].deps {
      assert s[k] == c[k - 1];
      if 1 < k { assert s[k - 1] == c[k - 2]; }
    }
  }

  lemma BlockedDependency(g: Graph, id: TaskId, done: set<TaskId>) returns (i: nat, d: TaskId)
    requires id in Completable(g) && id !in Unlocked(g, done)
    ensures i < |g| && g[i].id == id
    ensures d in g[i].deps && d in Completable(g) && d !in done
  {
    CompletableIsLeastFixedPoint(g);
    assert id in Unlocked(g, Completable(g));
    i :| 0 <= i < |g| && DepsWithin(g[i], Completable(g)) && g[i].id == id;
    assert !DepsWithin(g[i], done);
    d :| d in g[i].deps && d !in done;
  }

  /** A completable task missing from stage r sits on top of a chain of r + 1 tasks. */
  lemma {:induction false} LateTaskHasChain(g: Graph, id: TaskId, r: nat) returns (c: seq<nat>)
    requires id in Completable(g) && id !in Stage(g, r)
    ensures IsChain(g, c) && |c| == r + 1 && g[c[0]].id == id
    decreases r
  {
    if r == 0 {
      CompletableIsLeastFixedPoint(g);
      var i: nat :| i < |g| && g[i].id == id;
      c := [i];
    } else {
      var i, d := BlockedDependency(g, id, Stage(g, r - 1));
      var rest := LateTaskHasChain(g, d, r - 1);
      ChainPrepend(g, i, rest);
      c := [i] + rest;
    }
  }

  lemma ChainTail(g: Graph, c: seq<nat>)
    requires IsChain(g, c) && 1 < |c|
    ensures IsChain(g, c[1..]) && g[c[1]].id in g[c[0]].deps
  {
    assert g[c[1]].id in g[c[1 - 1]].deps;
    forall k | 0 < k < |c[1..]| ensures g[c[1..][k]].id in g[c[1..][k - 1]].deps {
      assert g[c[k + 1]].id in g[c[k + 1 - 1]].deps;
    }
  }

  /** Going down a chain costs at least one stage per edge. */
  lemma {:induction false} ChainDescendsStages(g: Graph, c: seq<nat>, n: nat)
    requires UniqueIds(g) && IsChain(g, c) && c != [] && g[c[0]].id in Stage(g, n)
    ensures |c| <= n && g[c[|c| - 1]].id in Stage(g, n + 1 - |c|)
    decreases |c|
  {
    var i :| 0 <= i < |g| && DepsWithin(g[i], Stage(g, n - 1)) && g[i].id == g[c[0]].id;
    assert i == c[0];
    if 1 < |c| {
      ChainTail(g, c);
      ChainDescendsStages(g, c[1..], n - 1);
      assert c[1..][|c| - 2] == c[|c| - 1];
    }
  }

  lemma {:induction false} CompletableMeansAcyclic(g: Graph)
    requires UniqueIds(g) && Ids(g) <= Completable(g)
    ensures Acyclic(g)
  {
    forall c | IsChain(g, c) && 2 <= |c| ensures c[0] != c[|c| - 1] {
      assert g[c[0]].id in Ids(g);
      if c[0] == c[|c| - 1] { CycleHasNoStage(g, c, |g|); }
    }
  }

  lemma {:induction false} CycleHasNoStage(g: Graph, c: seq<nat>, n: nat)
    requires UniqueIds(g) && IsChain(g, c) && 2 <= |c| && c[0] == c[|c| - 1]
    ensures g[c[0]].id !in Stage(g, n)
  {
    if g[c[0]].id in Stage(g, n) {
      ChainDescendsStages(g, c, n);
      CycleHasNoStage(g, c, n + 1 - |c|);
    }
  }

  /** From a stuck task one can walk down stuck tasks for as long as one likes. */
  lemma {:induction false} StuckTaskHasLongChain(g: Graph, i: nat, len: nat) returns (c: seq<nat>)
    requires DepsExist(g) && i < |g| && g[i].id !in Completable(g)
    ensures IsChain(g, c) && |c| == len + 1 && c[0] == i
    decreases len
  {
    c := [i];
    if len > 0 {
      CompletableIsLeastFixedPoint(g);
      assert !DepsWithin(g[i], Completable(g));
      var d :| d in g[i].deps && d !in Completable(g);
      assert d in Ids(g);
      var j :| 0 <= j < |g| && g[j].id == d;
      var rest := StuckTaskHasLongChain(g, j, len - 1);
      ChainPrepend(g, i, rest);
      c := [i] + rest;
    }
  }

  lemma {:induction false} Pigeonhole(c: seq<nat>, n: nat) returns (i: nat, j: nat)
    requires n < |c| && forall k :: 0 <= k < |c| ==> c[k] < n
    ensures i < j < |c| && c[i] == c[j]
    decreases n
  {
    var last := |c| - 1;
    if k :| 0 <= k < last && c[k] == c[last] {
      i, j := k, last;
    } else {
      // Rename the value n - 1 to c[last], which no other position uses.
      var d := seq(last, k requires 0 <= k < last => if c[k] == n - 1 then c[last] else c[k]);
      assert forall k :: 0 <= k < last ==> d[k] < n - 1;
      i, j := Pigeonhole(d, n - 1);
    }
  }

  lemma RepeatMakesCycle(g: Graph, c: seq<nat>, i: nat, j: nat)
    requires IsChain(g, c) && i < j < |c| && c[i] == c[j]
    ensures !Acyclic(g)
  {
    var s := c[i..j + 1];
    assert IsChain(g, s) by {
      forall k | 0 < k < |s| ensures g[s[k]].id in g[s[k - 1]].deps {
        assert s[k] == c[i + k] && s[k - 1] == c[i + k - 1];
      }
    }
    assert s[0] == s[|s| - 1];
  }

  /** Every task can be completed exactly when the graph is well formed. The
      left side counts as the scheduler does: completed IDs against tasks. */
  lemma AllCompletableIffWellFormed(g: Graph)
    ensures |Completable(g)| == |g| <==> WellFormed(g)
  {
    CompletableIsLeastFixedPoint(g);
    IdsCardinality(g);
    SubsetCardinality(Completable(g), Ids(g));
    if |Completable(g)| == |g| {
      assert UniqueIds(g) && Completable(g) == Ids(g);
      forall i | 0 <= i < |g| ensures forall d :: d in g[i].deps ==> d in Ids(g) {
        assert g[i].id in Unlocked(g, Completable(g));
        var k :| 0 <= k < |g| && DepsWithin(g[k], Completable(g)) && g[k].id == g[i].id;
        assert k == i;
      }
      CompletableMeansAcyclic(g);
    }
    if WellFormed(g) {
      forall i | 0 <= i < |g| ensures g[i].id in Completable(g) {
        if g[i].id !in Completable(g) {
          var c := StuckTaskHasLongChain(g, i, |g|);
          var p, q := Pigeonhole(c, |g|);
          RepeatMakesCycle(g, c, p, q);
        }
      }
      assert Ids(g) <= Completable(g);
      assert Ids(g) == Completable(g);
    }
  }
}
