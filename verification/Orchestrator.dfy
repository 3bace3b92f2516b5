/** The orchestrator runs a task graph in rounds. One scan per round reads the
    `completed` map entry by entry and launches a worker for every ready task,
    while workers launched earlier in the same round may already be finishing.
    A state machine with one action per atomic map operation covers every
    interleaving of the scan with the workers. */
module Orchestrator {
  import opened Sets
  import opened Wrappers
  import opened TaskGraphs

  datatype Phase =
    | AtTask(task: nat)              // about to read completed[task.ID]
    | AtDep(task: nat, dep: nat)     // about to read completed[depID]
    | Joining                        // scan over, waiting for the round's workers
    | Done
    | Deadlocked
    | Failed
  {
    predicate Terminal() { Done? || Deadlocked? || Failed? }
  }

  datatype WorkerStatus = Launched | Working | Succeeded | Errored {
    predicate Finished() { Succeeded? || Errored? }
  }

  datatype Worker = Worker(task: nat, status: WorkerStatus)

  datatype Event =
    | Start(task: nat, round: nat)
    | Context(task: nat, lines: seq<(TaskId, string)>)
    | Finish(task: nat, result: string)
    | Error(task: nat)

  /** `base` (the completed IDs when the round began), `round` and `log` are
      history; the other fields are the variables of the round loop. */
  datatype State = State(
    phase: Phase,
    didWork: bool,
    completed: set<TaskId>,
    results: map<TaskId, string>,
    workers: seq<Worker>,
    errs: seq<TaskId>,
    round: nat,
    base: set<TaskId>,
    log: seq<Event>)

  datatype Action = Scan | ReadContext(w: nat) | Succeed(w: nat, result: string) | Fail(w: nat) | Join

  function Init(g: Graph): State {
    State(if g == [] then Done else AtTask(0), false, {}, map[], [], [], 0, {}, [])
  }

  /** The dependency results a worker compiles into its context, in order. */
  function ContextLines(deps: seq<TaskId>, results: map<TaskId, string>): seq<(TaskId, string)> {
    if deps == [] then []
    else (if deps[0] in results then [(deps[0], results[deps[0]])] else []) + ContextLines(deps[1..], results)
  }

  predicate AllFinished(workers: seq<Worker>) {
    forall w :: 0 <= w < |workers| ==> workers[w].status.Finished()
  }

  predicate InRange(g: Graph, s: State) {
    && (s.phase.AtTask? ==> s.phase.task <= |g|)
    && (s.phase.AtDep? ==> s.phase.task < |g| && s.phase.dep <= |g[s.phase.task].deps|)
    && (forall w :: 0 <= w < |s.workers| ==> s.workers[w].task < |g|)
  }

  predicate Enabled(g: Graph, s: State, a: Action) {
    match a
    case Scan => s.phase.AtTask? || s.phase.AtDep?
    case ReadContext(w) => w < |s.workers| && s.workers[w].status == Launched
    case Succeed(w, _) => w < |s.workers| && s.workers[w].status == Working
    case Fail(w) => w < |s.workers| && s.workers[w].status == Working
    case Join => s.phase == Joining && AllFinished(s.workers)
  }

  function SetStatus(s: State, w: nat, status: WorkerStatus): State
    requires w < |s.workers|
  {
    s.(workers := s.workers[w := s.workers[w].(status := status)])
  }

  function LaunchState(s: State, i: nat): State {
    s.(phase := AtTask(i + 1), didWork := true,
       workers := s.workers + [Worker(i, Launched)], log := s.log + [Start(i, s.round)])
  }

  /** Where the scan goes after a map read. */
  function NextPhase(g: Graph, s: State): Phase
    requires InRange(g, s) && Enabled(g, s, Scan)
  {
    if s.phase.AtTask? then
      var i := s.phase.task;
      if i == |g| then Joining
      else if g[i].id in s.completed then AtTask(i + 1)
      else AtDep(i, 0)
    else
      var i, k := s.phase.task, s.phase.dep;
      if k < |g[i].deps| && g[i].deps[k] in s.completed then AtDep(i, k + 1) else AtTask(i + 1)
  }

  predicate Launching(g: Graph, s: State)
    requires InRange(g, s)
  {
    s.phase.AtDep? && s.phase.dep == |g[s.phase.task].deps|
  }

  function ScanStep(g: Graph, s: State): State
    requires InRange(g, s) && Enabled(g, s, Scan)
  {
    if Launching(g, s) then LaunchState(s, s.phase.task) else s.(phase := NextPhase(g, s))
  }

  function JoinStep(g: Graph, s: State): State {
    if s.errs != [] then s.(phase := Failed)
    else if !s.didWork && |s.completed| < |g| then s.(phase := Deadlocked)
    else if |s.completed| < |g| then
      s.(phase := AtTask(0), didWork := false, workers := [], errs := [],
         round := s.round + 1, base := s.completed)
    else s.(phase := Done)
  }

  function Apply(g: Graph, s: State, a: Action): State
    requires InRange(g, s) && Enabled(g, s, a)
  {
    match a
    case Scan => ScanStep(g, s)
    case ReadContext(w) =>
      var t := s.workers[w].task;
      SetStatus(s, w, Working).(log := s.log + [Context(t, ContextLines(g[t].deps, s.results))])
    case Succeed(w, result) =>
      var t := s.workers[w].task;
      SetStatus(s, w, Succeeded).(results := s.results[g[t].id := result],
        completed := s.completed + {g[t].id}, log := s.log + [Finish(t, result)])
    case Fail(w) =>
      var t := s.workers[w].task;
      SetStatus(s, w, Errored).(errs := s.errs + [g[t].id], log := s.log + [Error(t)])
    case Join => JoinStep(g, s)
  }

  /** The state a schedule leads to, or None when it takes a step that is not enabled. */
  function After(g: Graph, acts: seq<Action>): Option<State> {
    if acts == [] then Some(Init(g))
    else
      var before := After(g, acts[..|acts| - 1]);
      var a := acts[|acts| - 1];
      if before.Some? && InRange(g, before.value) && Enabled(g, before.value, a)
      then Some(Apply(g, before.value, a))
      else None
  }

  // ----- what every interleaving keeps -----

  function ScanPos(g: Graph, s: State): nat {
    if s.phase.AtTask? || s.phase.AtDep? then s.phase.task else |g|
  }

  ghost predicate HasFinished(g: Graph, log: seq<Event>, id: TaskId, result: string) {
    exists q :: 0 <= q < |log| && log[q].Finish? && log[q].task < |g|
      && g[log[q].task].id == id && log[q].result == result
  }

  ghost predicate HasResult(g: Graph, log: seq<Event>, id: TaskId) {
    exists r :: HasFinished(g, log, id, r)
  }

  /** An event is in order with what the log held before it. */
  ghost predicate EventInOrder(g: Graph, past: seq<Event>, e: Event) {
    e.task < |g| &&
    match e
    case Start(t, _) =>
      forall k :: 0 <= k < |g[t].deps| ==> HasResult(g, past, g[t].deps[k])
    case Context(t, lines) =>
      && |lines| == |g[t].deps|
      && (forall k :: 0 <= k < |lines| ==>
            lines[k].0 == g[t].deps[k] && HasFinished(g, past, lines[k].0, lines[k].1))
    case Finish(t, _) => exists q :: 0 <= q < |past| && past[q].Context? && past[q].task == t
    case Error(t) => exists q :: 0 <= q < |past| && past[q].Context? && past[q].task == t
  }

  ghost predicate LogInOrder(g: Graph, log: seq<Event>) {
    forall p :: 0 <= p < |log| ==> EventInOrder(g, log[..p], log[p])
  }

  ghost predicate TablesInv(g: Graph, s: State) {
    && s.completed == s.results.Keys
    && s.base <= s.completed <= Completable(g)
    && (forall id :: id in s.results ==> HasFinished(g, s.log, id, s.results[id]))
    && LogInOrder(g, s.log)
  }

  ghost predicate LaunchedFor(s: State, i: nat) {
    exists w :: 0 <= w < |s.workers| && s.workers[w].task == i
  }

  ghost predicate SucceededFor(g: Graph, s: State, id: TaskId)
    requires InRange(g, s)
  {
    exists w :: 0 <= w < |s.workers| && s.workers[w].status == Succeeded && g[s.workers[w].task].id == id
  }

  /** Scanned tasks that were ready when the round began are completed or launched. */
  ghost predicate Covered(g: Graph, s: State, i: nat)
    requires i < |g|
  {
    DepsWithin(g[i], s.base) ==> g[i].id in s.completed || LaunchedFor(s, i)
  }

  ghost predicate ScanInv(g: Graph, s: State) {
    && InRange(g, s)
    && (s.phase.AtDep? ==>
          && g[s.phase.task].id !in s.base
          && forall k :: 0 <= k < s.phase.dep ==> g[s.phase.task].deps[k] in s.completed)
    && (forall i :: 0 <= i < ScanPos(g, s) ==> Covered(g, s, i))
  }

  ghost predicate WorkerOk(g: Graph, s: State, w: Worker) {
    && w.task < |g| && w.task < ScanPos(g, s)
    && DepsWithin(g[w.task], s.completed)
    && g[w.task].id !in s.base
    && (w.status == Succeeded ==> g[w.task].id in s.completed)
    && (w.status == Errored ==> s.errs != [])
    && (w.status != Launched ==> exists q :: 0 <= q < |s.log| && s.log[q].Context? && s.log[q].task == w.task)
  }

  ghost predicate WorkersInv(g: Graph, s: State) {
    && InRange(g, s)
    && (forall w :: 0 <= w < |s.workers| ==> WorkerOk(g, s, s.workers[w]))
    && (forall v, w :: 0 <= v < w < |s.workers| ==> s.workers[v].task < s.workers[w].task)
    && (forall id :: id in s.completed && id !in s.base ==> SucceededFor(g, s, id))
    && (s.didWork <==> s.workers != [])
  }

  ghost predicate RoundsInv(g: Graph, s: State) {
    && Stage(g, s.round) <= s.base
    && (g != [] ==> |s.base| < |g|)
    && (g == [] ==> s == Init(g))
    && (s.phase == Done ==> |s.completed| == |g| && s.errs == [])
    && (s.phase == Deadlocked ==> |s.completed| < |g| && s.errs == [] && !s.didWork)
    && (s.phase == Failed ==> s.errs != [])
    && (s.phase.Terminal() ==> AllFinished(s.workers))
  }

  /** Every launch was of a task deeper than the stages already completed. */
  ghost predicate StartOk(g: Graph, s: State, e: Event)
    requires e.Start?
  {
    && e.task < |g| && e.round <= s.round
    && (g[e.task].id in s.base || LaunchedFor(s, e.task))
    && g[e.task].id in Completable(g) && g[e.task].id !in Stage(g, e.round)
  }

  ghost predicate StartsInv(g: Graph, s: State) {
    && (forall p :: 0 <= p < |s.log| && s.log[p].Start? ==> StartOk(g, s, s.log[p]))
    && (forall p, q :: 0 <= p < q < |s.log| && s.log[p].Start? && s.log[q].Start? ==>
          s.log[p].task != s.log[q].task)
  }

  ghost predicate Inv(g: Graph, s: State) {
    TablesInv(g, s) && ScanInv(g, s) && WorkersInv(g, s) && RoundsInv(g, s) && StartsInv(g, s)
  }

  lemma InitInv(g: Graph)
    ensures Inv(g, Init(g))
  {}

  lemma HasFinishedGrows(g: Graph, log: seq<Event>, e: Event, id: TaskId, r: string)
    requires HasFinished(g, log, id, r)
    ensures HasFinished(g, log + [e], id, r)
  {
    var q :| 0 <= q < |log| && log[q].Finish? && log[q].task < |g| && g[log[q].task].id == id && log[q].result == r;
    assert (log + [e])[q] == log[q];
  }

  lemma LogInOrderSnoc(g: Graph, log: seq<Event>, e: Event)
    requires LogInOrder(g, log) && EventInOrder(g, log, e)
    ensures LogInOrder(g, log + [e])
  {
    var l := log + [e];
    forall p | 0 <= p < |l| ensures EventInOrder(g, l[..p], l[p]) {
      assert l[..p] == if p < |log| then log[..p] else log;
    }
  }

  lemma UnlockedByCompleted(g: Graph, i: nat, done: set<TaskId>)
    requires i < |g| && DepsWithin(g[i], done) && done <= Completable(g)
    ensures g[i].id in Completable(g)
  {
    CompletableIsLeastFixedPoint(g);
    assert DepsWithin(g[i], Completable(g));
    assert g[i].id in Unlocked(g, Completable(g));
  }

  lemma {:induction false} ContextIsComplete(g: Graph, s: State, deps: seq<TaskId>)
    requires TablesInv(g, s) && forall d :: d in deps ==> d in s.completed
    ensures var lines := ContextLines(deps, s.results);
            |lines| == |deps| && forall k :: 0 <= k < |lines| ==>
              lines[k].0 == deps[k] && HasFinished(g, s.log, lines[k].0, lines[k].1)
  {
    if deps != [] {
      ContextIsComplete(g, s, deps[1..]);
      var lines := ContextLines(deps, s.results);
      assert deps[0] in s.results;
      assert lines == [(deps[0], s.results[deps[0]])] + ContextLines(deps[1..], s.results);
    }
  }

  // A scan step that launches nothing changes the phase alone.

  lemma PhaseChangeKeepsWorkers(g: Graph, s: State, phase: Phase)
    requires WorkersInv(g, s)
    requires var s' := s.(phase := phase); InRange(g, s') && ScanPos(g, s) <= ScanPos(g, s')
    ensures WorkersInv(g, s.(phase := phase))
  {
    var s' := s.(phase := phase);
    forall w | 0 <= w < |s.workers| ensures WorkerOk(g, s', s'.workers[w]) {
      assert WorkerOk(g, s, s.workers[w]);
    }
    forall id | id in s'.completed && id !in s'.base ensures SucceededFor(g, s', id) {
      assert SucceededFor(g, s, id);
      var w :| 0 <= w < |s.workers| && s.workers[w].status == Succeeded && g[s.workers[w].task].id == id;
      assert s'.workers[w] == s.workers[w];
    }
  }

  lemma PhaseChangeKeepsStarts(g: Graph, s: State, phase: Phase)
    requires StartsInv(g, s)
    ensures StartsInv(g, s.(phase := phase))
  {
    var s' := s.(phase := phase);
    LaunchedForGrows(s, s');
    forall p | 0 <= p < |s'.log| && s'.log[p].Start? ensures StartOk(g, s', s'.log[p]) {
      assert StartOk(g, s, s.log[p]);
    }
  }

  lemma QuietScanKeepsScan(g: Graph, s: State)
    requires ScanInv(g, s) && s.base <= s.completed && Enabled(g, s, Scan) && !Launching(g, s)
    ensures ScanInv(g, s.(phase := NextPhase(g, s)))
  {
    var s' := s.(phase := NextPhase(g, s));
    LaunchedForGrows(s, s');
    forall i | 0 <= i < ScanPos(g, s') ensures Covered(g, s', i) {
      if i < ScanPos(g, s) {
        assert Covered(g, s, i);
      } else if s.phase.AtDep? {
        assert g[i].deps[s.phase.dep] in g[i].deps;
      }
    }
  }

  lemma PhaseChangeKeepsInv(g: Graph, s: State, phase: Phase)
    requires Inv(g, s) && !s.phase.Terminal() && !phase.Terminal()
    requires var s' := s.(phase := phase); ScanInv(g, s') && ScanPos(g, s) <= ScanPos(g, s')
    ensures Inv(g, s.(phase := phase))
  {
    var s' := s.(phase := phase);
    PhaseChangeKeepsWorkers(g, s, phase);
    PhaseChangeKeepsStarts(g, s, phase);
    assert TablesInv(g, s');
    assert RoundsInv(g, s');
  }

  lemma LaunchKeepsTables(g: Graph, s: State, i: nat)
    requires Inv(g, s) && i < |g| && s.phase == AtDep(i, |g[i].deps|)
    ensures TablesInv(g, LaunchState(s, i))
  {
    var e := Start(i, s.round);
    forall k | 0 <= k < |g[i].deps| ensures HasResult(g, s.log, g[i].deps[k]) {
      var d := g[i].deps[k];
      assert HasFinished(g, s.log, d, s.results[d]);
    }
    LogInOrderSnoc(g, s.log, e);
    forall id | id in s.results ensures HasFinished(g, s.log + [e], id, s.results[id]) {
      HasFinishedGrows(g, s.log, e, id, s.results[id]);
    }
  }

  lemma LaunchKeepsWorkers(g: Graph, s: State, i: nat)
    requires Inv(g, s) && i < |g| && s.phase == AtDep(i, |g[i].deps|)
    ensures WorkersInv(g, LaunchState(s, i))
  {
    var s' := LaunchState(s, i);
    assert DepsWithin(g[i], s.completed);
    forall w | 0 <= w < |s'.workers| ensures WorkerOk(g, s', s'.workers[w]) {
      if w < |s.workers| {
        assert WorkerOk(g, s, s.workers[w]);
        if s.workers[w].status != Launched {
          var q :| 0 <= q < |s.log| && s.log[q].Context? && s.log[q].task == s.workers[w].task;
          assert s'.log[q] == s.log[q];
        }
      }
    }
    forall v, w | 0 <= v < w < |s'.workers| ensures s'.workers[v].task < s'.workers[w].task {
      assert WorkerOk(g, s, s.workers[v]);
    }
    forall id | id in s'.completed && id !in s'.base ensures SucceededFor(g, s', id) {
      assert SucceededFor(g, s, id);
      var w :| 0 <= w < |s.workers| && s.workers[w].status == Succeeded && g[s.workers[w].task].id == id;
      assert s'.workers[w] == s.workers[w];
    }
  }

  lemma LaunchedForGrows(s: State, s': State)
    requires |s.workers| <= |s'.workers|
    requires forall w :: 0 <= w < |s.workers| ==> s'.workers[w].task == s.workers[w].task
    ensures forall i :: LaunchedFor(s, i) ==> LaunchedFor(s', i)
  {
    forall i | LaunchedFor(s, i) ensures LaunchedFor(s', i) {
      var w :| 0 <= w < |s.workers| && s.workers[w].task == i;
      assert s'.workers[w].task == i;
    }
  }

  lemma LaunchKeepsScan(g: Graph, s: State, i: nat)
    requires Inv(g, s) && i < |g| && s.phase == AtDep(i, |g[i].deps|)
    ensures ScanInv(g, LaunchState(s, i))
  {
    var s' := LaunchState(s, i);
    LaunchedForGrows(s, s');
    assert s'.workers[|s.workers|].task == i;
    assert LaunchedFor(s', i);
    forall j | 0 <= j < ScanPos(g, s') ensures Covered(g, s', j) {
      if j < i { assert Covered(g, s, j); }
    }
  }

  lemma LaunchKeepsStarts(g: Graph, s: State, i: nat)
    requires Inv(g, s) && i < |g| && s.phase == AtDep(i, |g[i].deps|)
    ensures StartsInv(g, LaunchState(s, i))
  {
    var s' := LaunchState(s, i);
    LaunchedForGrows(s, s');
    assert s'.workers[|s.workers|].task == i;
    assert DepsWithin(g[i], s.completed);
    UnlockedByCompleted(g, i, s.completed);
    forall p | 0 <= p < |s'.log| && s'.log[p].Start? ensures StartOk(g, s', s'.log[p]) {
      if p < |s.log| { assert StartOk(g, s, s.log[p]); }
    }
    forall p, q | 0 <= p < q < |s'.log| && s'.log[p].Start? && s'.log[q].Start?
      ensures s'.log[p].task != s'.log[q].task
    {
      assert StartOk(g, s, s.log[p]);
      if q == |s.log| { assert forall w :: 0 <= w < |s.workers| ==> WorkerOk(g, s, s.workers[w]); }
    }
  }

  lemma LaunchKeepsRounds(g: Graph, s: State, i: nat)
    requires RoundsInv(g, s) && i < |g| && s.phase == AtDep(i, |g[i].deps|)
    ensures RoundsInv(g, LaunchState(s, i))
  {}

  lemma ScanKeepsInv(g: Graph, s: State)
    requires Inv(g, s) && Enabled(g, s, Scan)
    ensures Inv(g, ScanStep(g, s))
  {
    if Launching(g, s) {
      var i := s.phase.task;
      LaunchKeepsTables(g, s, i);
      LaunchKeepsWorkers(g, s, i);
      LaunchKeepsScan(g, s, i);
      LaunchKeepsStarts(g, s, i);
      LaunchKeepsRounds(g, s, i);
    } else {
      QuietScanKeepsScan(g, s);
      PhaseChangeKeepsInv(g, s, NextPhase(g, s));
    }
  }

  // A worker step moves one worker, appends one event and only adds to the tables.

  ghost predicate WorkerMove(g: Graph, s: State, s': State, w: nat, e: Event) {
    && InRange(g, s) && w < |s.workers| && s.workers[w].status != Succeeded && !e.Start?
    && |s'.workers| == |s.workers|
    && s'.workers == s.workers[w := s.workers[w].(status := s'.workers[w].status)]
    && s' == s.(workers := s'.workers, completed := s'.completed, results := s'.results,
                errs := s'.errs, log := s.log + [e])
    && s.completed <= s'.completed
    && (forall id :: id in s'.completed && id !in s.completed ==>
          id == g[s.workers[w].task].id && s'.workers[w].status == Succeeded)
    && (s.errs != [] ==> s'.errs != [])
  }

  lemma MoveKeepsScan(g: Graph, s: State, s': State, w: nat, e: Event)
    requires Inv(g, s) && WorkerMove(g, s, s', w, e)
    ensures ScanInv(g, s')
  {
    LaunchedForGrows(s, s');
    forall i | 0 <= i < ScanPos(g, s') ensures Covered(g, s', i) {
      assert Covered(g, s, i);
    }
  }

  lemma MoveKeepsStarts(g: Graph, s: State, s': State, w: nat, e: Event)
    requires Inv(g, s) && WorkerMove(g, s, s', w, e)
    ensures StartsInv(g, s')
  {
    LaunchedForGrows(s, s');
    forall p | 0 <= p < |s'.log| && s'.log[p].Start? ensures StartOk(g, s', s'.log[p]) {
      assert StartOk(g, s, s.log[p]);
    }
  }

  lemma MoveKeepsWorkers(g: Graph, s: State, s': State, w: nat, e: Event)
    requires Inv(g, s) && WorkerMove(g, s, s', w, e) && WorkerOk(g, s', s'.workers[w])
    ensures WorkersInv(g, s')
  {
    forall v | 0 <= v < |s'.workers| ensures WorkerOk(g, s', s'.workers[v]) {
      if v != w {
        assert WorkerOk(g, s, s.workers[v]);
        if s.workers[v].status != Launched {
          var q :| 0 <= q < |s.log| && s.log[q].Context? && s.log[q].task == s.workers[v].task;
          assert s'.log[q] == s.log[q];
        }
      }
    }
    forall id | id in s'.completed && id !in s'.base ensures SucceededFor(g, s', id) {
      if id in s.completed {
        assert SucceededFor(g, s, id);
        var v :| 0 <= v < |s.workers| && s.workers[v].status == Succeeded && g[s.workers[v].task].id == id;
        assert s'.workers[v] == s.workers[v];
      } else {
        assert s'.workers[w].status == Succeeded;
      }
    }
  }

  lemma MoveKeepsTables(g: Graph, s: State, s': State, w: nat, e: Event)
    requires Inv(g, s) && WorkerMove(g, s, s', w, e) && EventInOrder(g, s.log, e)
    requires s'.completed == s'.results.Keys
    requires var t := s.workers[w].task;
             if e.Finish? then e.task == t && s'.results == s.results[g[t].id := e.result]
             else s'.results == s.results
    ensures TablesInv(g, s')
  {
    LogInOrderSnoc(g, s.log, e);
    forall id | id in s'.results ensures HasFinished(g, s'.log, id, s'.results[id]) {
      if e.Finish? && id == g[e.task].id {
        assert s'.log[|s.log|] == e;
      } else {
        HasFinishedGrows(g, s.log, e, id, s.results[id]);
      }
    }
    var t := s.workers[w].task;
    assert WorkerOk(g, s, s.workers[w]);
    UnlockedByCompleted(g, t, s.completed);
  }

  lemma MoveKeepsInv(g: Graph, s: State, s': State, w: nat, e: Event)
    requires Inv(g, s) && WorkerMove(g, s, s', w, e) && EventInOrder(g, s.log, e)
    requires !s.workers[w].status.Finished()
    requires s'.completed == s'.results.Keys && WorkerOk(g, s', s'.workers[w])
    requires var t := s.workers[w].task;
             if e.Finish? then e.task == t && s'.results == s.results[g[t].id := e.result]
             else s'.results == s.results
    ensures Inv(g, s')
  {
    MoveKeepsTables(g, s, s', w, e);
    MoveKeepsScan(g, s, s', w, e);
    MoveKeepsWorkers(g, s, s', w, e);
    MoveKeepsStarts(g, s, s', w, e);
    assert !AllFinished(s.workers);
    assert RoundsInv(g, s');
  }

  lemma ReadContextKeepsInv(g: Graph, s: State, w: nat)
    requires Inv(g, s) && Enabled(g, s, ReadContext(w))
    ensures Inv(g, Apply(g, s, ReadContext(w)))
  {
    var s' := Apply(g, s, ReadContext(w));
    var t := s.workers[w].task;
    var e := Context(t, ContextLines(g[t].deps, s.results));
    assert WorkerOk(g, s, s.workers[w]);
    ContextIsComplete(g, s, g[t].deps);
    assert s'.log[|s.log|] == e;
    MoveKeepsInv(g, s, s', w, e);
  }

  lemma SucceedIsMove(g: Graph, s: State, w: nat, result: string)
    requires InRange(g, s) && Enabled(g, s, Succeed(w, result)) && s.completed == s.results.Keys
    ensures var s' := Apply(g, s, Succeed(w, result)); var t := s.workers[w].task;
      && WorkerMove(g, s, s', w, Finish(t, result))
      && s'.completed == s'.results.Keys && s'.results == s.results[g[t].id := result]
      && s'.phase == s.phase && s'.workers[w] == Worker(t, Succeeded)
  {}

  lemma SucceedKeepsInv(g: Graph, s: State, w: nat, result: string)
    requires Inv(g, s) && Enabled(g, s, Succeed(w, result))
    ensures Inv(g, Apply(g, s, Succeed(w, result)))
  {
    var s' := Apply(g, s, Succeed(w, result));
    var t := s.workers[w].task;
    SucceedIsMove(g, s, w, result);
    assert WorkerOk(g, s, s.workers[w]);
    var q :| 0 <= q < |s.log| && s.log[q].Context? && s.log[q].task == t;
    assert WorkerOk(g, s', s'.workers[w]) by { assert s'.log[q] == s.log[q]; }
    assert EventInOrder(g, s.log, Finish(t, result));
    MoveKeepsInv(g, s, s', w, Finish(t, result));
  }

  lemma FailKeepsInv(g: Graph, s: State, w: nat)
    requires Inv(g, s) && Enabled(g, s, Fail(w))
    ensures Inv(g, Apply(g, s, Fail(w)))
  {
    var s' := Apply(g, s, Fail(w));
    var t := s.workers[w].task;
    var e := Error(t);
    assert WorkerOk(g, s, s.workers[w]);
    var q :| 0 <= q < |s.log| && s.log[q].Context? && s.log[q].task == t;
    assert EventInOrder(g, s.log, e);
    assert s'.log[q] == s.log[q];
    assert WorkerOk(g, s', s'.workers[w]);
    MoveKeepsInv(g, s, s', w, e);
  }

  // ----- the end of a round -----

  lemma RoundCompletesStage(g: Graph, s: State)
    requires Inv(g, s) && Enabled(g, s, Join) && s.errs == []
    ensures Stage(g, s.round + 1) <= s.completed
    ensures forall w :: 0 <= w < |s.workers| ==> s.workers[w].status == Succeeded
  {
    forall w | 0 <= w < |s.workers| ensures s.workers[w].status == Succeeded {
      assert WorkerOk(g, s, s.workers[w]);
    }
    forall id | id in Stage(g, s.round + 1) ensures id in s.completed {
      var i :| 0 <= i < |g| && DepsWithin(g[i], Stage(g, s.round)) && g[i].id == id;
      assert DepsWithin(g[i], s.base);
      assert Covered(g, s, i);
      if LaunchedFor(s, i) {
        var w :| 0 <= w < |s.workers| && s.workers[w].task == i;
        assert WorkerOk(g, s, s.workers[w]);
      }
    }
  }

  lemma VerdictKeepsInv(g: Graph, s: State)
    requires Inv(g, s) && Enabled(g, s, Join) && JoinStep(g, s).phase.Terminal()
    ensures Inv(g, JoinStep(g, s))
  {
    var phase := JoinStep(g, s).phase;
    PhaseChangeKeepsWorkers(g, s, phase);
    PhaseChangeKeepsStarts(g, s, phase);
    CompletedCount(g, s);
    var s' := s.(phase := phase);
    LaunchedForGrows(s, s');
    assert ScanInv(g, s') by {
      forall i | 0 <= i < ScanPos(g, s') ensures Covered(g, s', i) {
        assert Covered(g, s, i);
      }
    }
    assert RoundsInv(g, s');
  }

  lemma NextRoundKeepsStarts(g: Graph, s: State)
    requires Inv(g, s) && Enabled(g, s, Join) && !JoinStep(g, s).phase.Terminal()
    ensures StartsInv(g, JoinStep(g, s))
  {
    var s' := JoinStep(g, s);
    RoundCompletesStage(g, s);
    forall p | 0 <= p < |s'.log| && s'.log[p].Start? ensures StartOk(g, s', s'.log[p]) {
      assert StartOk(g, s, s.log[p]);
      if LaunchedFor(s, s.log[p].task) {
        var w :| 0 <= w < |s.workers| && s.workers[w].task == s.log[p].task;
        assert WorkerOk(g, s, s.workers[w]);
      }
    }
  }

  lemma JoinKeepsInv(g: Graph, s: State)
    requires Inv(g, s) && Enabled(g, s, Join)
    ensures Inv(g, JoinStep(g, s))
  {
    if JoinStep(g, s).phase.Terminal() {
      VerdictKeepsInv(g, s);
    } else {
      NextRoundKeepsRounds(g, s);
      NextRoundKeepsStarts(g, s);
      NextRoundKeepsRest(g, s);
    }
  }

  lemma NextRoundKeepsRounds(g: Graph, s: State)
    requires Inv(g, s) && Enabled(g, s, Join) && !JoinStep(g, s).phase.Terminal()
    ensures RoundsInv(g, JoinStep(g, s))
  {
    RoundCompletesStage(g, s);
  }

  lemma NextRoundKeepsRest(g: Graph, s: State)
    requires TablesInv(g, s) && !JoinStep(g, s).phase.Terminal()
    ensures var s' := JoinStep(g, s); TablesInv(g, s') && ScanInv(g, s') && WorkersInv(g, s')
  {}

  lemma CompletedCount(g: Graph, s: State)
    requires Inv(g, s)
    ensures |s.completed| <= |g|
  {
    CompletableIsLeastFixedPoint(g);
    SubsetCardinality(s.completed, Ids(g));
    IdsCardinality(g);
  }

  lemma {:induction false} EveryRunKeepsInv(g: Graph, acts: seq<Action>)
    requires After(g, acts).Some?
    ensures Inv(g, After(g, acts).value)
  {
    if acts == [] {
      InitInv(g);
    } else {
      var n := |acts| - 1;
      EveryRunKeepsInv(g, acts[..n]);
      var s := After(g, acts[..n]).value;
      match acts[n]
      case Scan => ScanKeepsInv(g, s);
      case Join => JoinKeepsInv(g, s);
      case ReadContext(w) => ReadContextKeepsInv(g, s, w);
      case Succeed(w, result) => SucceedKeepsInv(g, s, w, result);
      case Fail(w) => FailKeepsInv(g, s, w);
    }
  }

  // ----- termination and progress -----

  function ScanLeft(g: Graph, i: nat): nat
    decreases |g| - i
  {
    if i >= |g| then 2 else |g[i].deps| + 4 + ScanLeft(g, i + 1)
  }

  function PhaseLeft(g: Graph, s: State): nat
    requires InRange(g, s)
  {
    match s.phase
    case AtTask(i) => ScanLeft(g, i)
    case AtDep(i, k) => |g[i].deps| - k + 3 + ScanLeft(g, i + 1)
    case Joining => 1
    case _ => 0
  }

  function WorkerLeft(w: Worker): nat {
    if w.status == Launched then 2 else if w.status == Working then 1 else 0
  }

  function WorkersLeft(workers: seq<Worker>): nat {
    if workers == [] then 0 else WorkersLeft(workers[..|workers| - 1]) + WorkerLeft(workers[|workers| - 1])
  }

  function RoundsLeft(g: Graph, s: State): nat {
    if |s.base| < |g| then |g| - |s.base| else 0
  }

  function RoundsCost(g: Graph, rounds: nat): nat {
    if rounds == 0 then 0 else RoundsCost(g, rounds - 1) + ScanLeft(g, 0) + 1
  }

  function RoundCost(g: Graph, s: State): nat
    requires InRange(g, s)
  {
    PhaseLeft(g, s) + WorkersLeft(s.workers)
  }

  /** An upper bound on the steps still to come. */
  function StepsLeft(g: Graph, s: State): nat
    requires InRange(g, s)
  {
    RoundsCost(g, RoundsLeft(g, s)) + RoundCost(g, s)
  }

  lemma {:induction false} RoundsCostDrops(g: Graph, m: nat, n: nat)
    requires m < n
    ensures RoundsCost(g, m) + ScanLeft(g, 0) + 1 <= RoundsCost(g, n)
  {
    if m + 1 < n { RoundsCostDrops(g, m, n - 1); }
  }

  lemma {:induction false} WorkersLeftUpdate(workers: seq<Worker>, w: nat, x: Worker)
    requires w < |workers|
    ensures WorkersLeft(workers[w := x]) == WorkersLeft(workers) - WorkerLeft(workers[w]) + WorkerLeft(x)
  {
    var n := |workers| - 1;
    if w < n {
      WorkersLeftUpdate(workers[..n], w, x);
      assert workers[w := x][..n] == workers[..n][w := x];
    } else {
      assert workers[w := x][..n] == workers[..n];
    }
  }

  lemma BaseGrows(g: Graph, s: State)
    requires Inv(g, s) && Enabled(g, s, Join) && s.errs == [] && s.didWork
    ensures |s.base| < |s.completed|
  {
    RoundCompletesStage(g, s);
    var w := s.workers[0];
    assert WorkerOk(g, s, w);
    assert w.status == Succeeded;
    SubsetCardinality(s.base, s.completed);
  }

  lemma ScanLowersRoundCost(g: Graph, s: State)
    requires InRange(g, s) && Enabled(g, s, Scan)
    ensures InRange(g, ScanStep(g, s)) && RoundCost(g, ScanStep(g, s)) < RoundCost(g, s)
  {
    var s' := ScanStep(g, s);
    if Launching(g, s) { assert s'.workers[..|s.workers|] == s.workers; }
  }

  lemma WorkerStepLowersRoundCost(g: Graph, s: State, a: Action)
    requires InRange(g, s) && Enabled(g, s, a) && !a.Scan? && !a.Join?
    ensures var s' := Apply(g, s, a); InRange(g, s') && RoundCost(g, s') < RoundCost(g, s) && s'.base == s.base
  {
    var s' := Apply(g, s, a);
    assert s'.phase == s.phase && s'.workers == s.workers[a.w := s'.workers[a.w]];
    WorkersLeftUpdate(s.workers, a.w, s'.workers[a.w]);
  }

  lemma NextRoundLowersStepsLeft(g: Graph, s: State)
    requires Inv(g, s) && Enabled(g, s, Join) && JoinStep(g, s).phase == AtTask(0)
    ensures InRange(g, JoinStep(g, s)) && StepsLeft(g, JoinStep(g, s)) < StepsLeft(g, s)
  {
    var s' := JoinStep(g, s);
    BaseGrows(g, s);
    assert RoundsLeft(g, s') < RoundsLeft(g, s);
    RoundsCostDrops(g, RoundsLeft(g, s'), RoundsLeft(g, s));
    assert RoundCost(g, s') == ScanLeft(g, 0);
  }

  lemma VerdictLowersStepsLeft(g: Graph, s: State)
    requires InRange(g, s) && Enabled(g, s, Join) && JoinStep(g, s).phase != AtTask(0)
    ensures InRange(g, JoinStep(g, s)) && StepsLeft(g, JoinStep(g, s)) < StepsLeft(g, s)
  {
    CheaperRoundLowersStepsLeft(g, s, JoinStep(g, s));
  }

  lemma CheaperRoundLowersStepsLeft(g: Graph, s: State, s': State)
    requires InRange(g, s) && InRange(g, s') && s'.base == s.base && RoundCost(g, s') < RoundCost(g, s)
    ensures StepsLeft(g, s') < StepsLeft(g, s)
  {}

  lemma StepLowersStepsLeft(g: Graph, s: State, a: Action)
    requires Inv(g, s) && Enabled(g, s, a)
    ensures InRange(g, Apply(g, s, a)) && StepsLeft(g, Apply(g, s, a)) < StepsLeft(g, s)
  {
    if a.Scan? {
      ScanLowersRoundCost(g, s);
      CheaperRoundLowersStepsLeft(g, s, ScanStep(g, s));
    } else if !a.Join? {
      WorkerStepLowersRoundCost(g, s, a);
      CheaperRoundLowersStepsLeft(g, s, Apply(g, s, a));
    } else if JoinStep(g, s).phase == AtTask(0) {
      NextRoundLowersStepsLeft(g, s);
    } else {
      VerdictLowersStepsLeft(g, s);
    }
  }

  lemma LastStepOfRun(g: Graph, acts: seq<Action>)
    requires After(g, acts).Some? && acts != []
    ensures var before, s := After(g, acts[..|acts| - 1]).value, After(g, acts).value;
      InRange(g, s) && StepsLeft(g, s) < StepsLeft(g, before)
  {
    EveryRunKeepsInv(g, acts[..|acts| - 1]);
    StepLowersStepsLeft(g, After(g, acts[..|acts| - 1]).value, acts[|acts| - 1]);
  }

  /** No schedule is longer than the initial bound, so every run ends. */
  lemma {:induction false} RunsAreBounded(g: Graph, acts: seq<Action>)
    requires After(g, acts).Some?
    ensures InRange(g, After(g, acts).value) && |acts| + StepsLeft(g, After(g, acts).value) <= StepsLeft(g, Init(g))
  {
    if acts != [] {
      RunsAreBounded(g, acts[..|acts| - 1]);
      LastStepOfRun(g, acts);
    }
  }

  /** A run that has not reached a verdict can always take another step. */
  lemma Progress(g: Graph, s: State) returns (a: Action)
    requires Inv(g, s) && !s.phase.Terminal()
    ensures Enabled(g, s, a)
  {
    if s.phase.AtTask? || s.phase.AtDep? {
      a := Scan;
    } else if AllFinished(s.workers) {
      a := Join;
    } else {
      var w: nat :| w < |s.workers| && !s.workers[w].status.Finished();
      a := if s.workers[w].status == Launched then ReadContext(w) else Fail(w);
    }
  }

  // ----- the verdict -----

  predicate SomeFailure(acts: seq<Action>) {
    exists k :: 0 <= k < |acts| && acts[k].Fail?
  }

  lemma SomeFailureSnoc(acts: seq<Action>, a: Action)
    ensures SomeFailure(acts + [a]) <==> SomeFailure(acts) || a.Fail?
  {
    var more := acts + [a];
    if SomeFailure(acts) {
      var k :| 0 <= k < |acts| && acts[k].Fail?;
      assert more[k].Fail?;
    }
    if a.Fail? { assert more[|acts|].Fail?; }
    if SomeFailure(more) {
      var k :| 0 <= k < |more| && more[k].Fail?;
      if k < |acts| { assert acts[k].Fail?; }
    }
  }

  lemma StepKeepsErrors(g: Graph, s: State, a: Action)
    requires InRange(g, s) && Enabled(g, s, a)
    ensures Apply(g, s, a).errs != [] <==> s.errs != [] || a.Fail?
  {}

  lemma {:induction false} ErrorsAreFailures(g: Graph, acts: seq<Action>)
    requires After(g, acts).Some?
    ensures After(g, acts).value.errs != [] <==> SomeFailure(acts)
  {
    if acts != [] {
      var n := |acts| - 1;
      ErrorsAreFailures(g, acts[..n]);
      assert acts == acts[..n] + [acts[n]];
      SomeFailureSnoc(acts[..n], acts[n]);
      StepKeepsErrors(g, After(g, acts[..n]).value, acts[n]);
    }
  }

  lemma IdleRoundAddsNothing(g: Graph, s: State)
    requires WorkersInv(g, s) && s.workers == []
    ensures s.completed <= s.base && |s.completed| <= |s.base|
  {
    forall x ensures !SucceededFor(g, s, x) {}
    SubsetCardinality(s.completed, s.base);
  }

  /** A round that launched nothing and failed nowhere has reached the fixed point. */
  lemma IdleRoundIsFixedPoint(g: Graph, s: State)
    requires Inv(g, s) && s.phase == Deadlocked
    ensures s.completed == Completable(g)
  {
    IdleRoundAddsNothing(g, s);
    forall id | id in Unlocked(g, s.completed) ensures id in s.completed {
      var i :| 0 <= i < |g| && DepsWithin(g[i], s.completed) && g[i].id == id;
      assert DepsWithin(g[i], s.base);
      assert Covered(g, s, i);
    }
    CompletableIsLeastFixedPoint(g);
  }

  /** The verdict is exact under every interleaving: a run that reached a verdict
      failed exactly when some worker failed; otherwise it completed every task
      exactly when IDs are unique, dependency IDs exist and the graph is acyclic,
      and reported a deadlock exactly when not. Either way the completed IDs are
      the least fixed point, and no worker is left running. */
  lemma VerdictIsExact(g: Graph, acts: seq<Action>)
    requires After(g, acts).Some? && After(g, acts).value.phase.Terminal()
    ensures var s := After(g, acts).value;
      && (s.phase == Failed <==> SomeFailure(acts))
      && (!SomeFailure(acts) ==>
            && (s.phase == Done <==> WellFormed(g))
            && (s.phase == Deadlocked <==> !WellFormed(g))
            && s.completed == s.results.Keys == Completable(g))
      && AllFinished(s.workers)
  {
    EveryRunKeepsInv(g, acts);
    ErrorsAreFailures(g, acts);
    var s := After(g, acts).value;
    AllCompletableIffWellFormed(g);
    CompletableIsLeastFixedPoint(g);
    IdsCardinality(g);
    SubsetCardinality(Completable(g), Ids(g));
    if s.phase == Deadlocked { IdleRoundIsFixedPoint(g, s); }
    if s.phase == Done { SubsetCardinality(s.completed, Completable(g)); }
  }

  /** In every run: a task starts only after each of its dependencies finished with
      a result, and its context holds every dependency's result, in order. */
  lemma StartsRespectDependencies(g: Graph, acts: seq<Action>, p: nat)
    requires After(g, acts).Some? && p < |After(g, acts).value.log|
    ensures var log := After(g, acts).value.log; EventInOrder(g, log[..p], log[p])
  {
    EveryRunKeepsInv(g, acts);
  }

  /** In every run no task is started twice; with unique IDs, no ID is. */
  lemma StartsAtMostOnce(g: Graph, acts: seq<Action>, p: nat, q: nat)
    requires After(g, acts).Some?
    requires var log := After(g, acts).value.log; p < q < |log| && log[p].Start? && log[q].Start?
    ensures var log := After(g, acts).value.log;
      && log[p].task != log[q].task
      && (UniqueIds(g) && log[p].task < |g| && log[q].task < |g| ==> g[log[p].task].id != g[log[q].task].id)
  {
    EveryRunKeepsInv(g, acts);
  }

  /** A task started in round r (counting from 0) has r + 1 tasks on a dependency
      chain below it. */
  lemma StartsSitOnChains(g: Graph, acts: seq<Action>, p: nat) returns (c: seq<nat>)
    requires After(g, acts).Some?
    requires var log := After(g, acts).value.log; p < |log| && log[p].Start?
    ensures var e := After(g, acts).value.log[p];
      e.task < |g| && IsChain(g, c) && |c| == e.round + 1 && g[c[0]].id == g[e.task].id
  {
    EveryRunKeepsInv(g, acts);
    var s := After(g, acts).value;
    assert StartOk(g, s, s.log[p]);
    c := LateTaskHasChain(g, g[s.log[p].task].id, s.log[p].round);
  }

  ghost predicate StartedIn(log: seq<Event>, r: nat) {
    exists p :: 0 <= p < |log| && log[p].Start? && log[p].round == r
  }

  /** No round but the current one was idle, nor that one if it failed. */
  ghost predicate RoundsStarted(s: State) {
    && (forall r :: 0 <= r < s.round ==> StartedIn(s.log, r))
    && (s.didWork ==> StartedIn(s.log, s.round))
    && (s.errs != [] ==> s.didWork)
  }

  lemma StartedInGrows(log: seq<Event>, e: Event, r: nat)
    requires StartedIn(log, r)
    ensures StartedIn(log + [e], r)
  {
    var p :| 0 <= p < |log| && log[p].Start? && log[p].round == r;
    assert (log + [e])[p] == log[p];
  }

  lemma RoundsStartedGrows(s: State, s': State, e: Event)
    requires RoundsStarted(s) && s'.log == s.log + [e] && s'.round == s.round
    requires s'.didWork == s.didWork || (e.Start? && e.round == s.round)
    requires s'.errs != [] ==> s'.didWork
    ensures RoundsStarted(s')
  {
    forall r | 0 <= r <= s.round && StartedIn(s.log, r) ensures StartedIn(s'.log, r) {
      StartedInGrows(s.log, e, r);
    }
    if e.Start? { assert s'.log[|s.log|] == e; }
  }

  lemma StepKeepsRoundsStarted(g: Graph, s: State, a: Action)
    requires Inv(g, s) && Enabled(g, s, a) && RoundsStarted(s)
    ensures RoundsStarted(Apply(g, s, a))
  {
    var s' := Apply(g, s, a);
    if a.Join? || (a.Scan? && !Launching(g, s)) {
    } else {
      RoundsStartedGrows(s, s', s'.log[|s.log|]);
    }
  }

  lemma {:induction false} EveryRoundStarts(g: Graph, acts: seq<Action>)
    requires After(g, acts).Some?
    ensures RoundsStarted(After(g, acts).value)
  {
    if acts != [] {
      var n := |acts| - 1;
      EveryRoundStarts(g, acts[..n]);
      EveryRunKeepsInv(g, acts[..n]);
      StepKeepsRoundsStarted(g, After(g, acts[..n]).value, acts[n]);
    }
  }

  lemma DoneRoundWorked(g: Graph, s: State)
    requires Inv(g, s) && s.phase == Done && g != []
    ensures s.didWork
  {
    if s.workers == [] { IdleRoundAddsNothing(g, s); }
  }

  /** Rounds against chains: at any point of a run some dependency chain has one
      task for every round finished, at the end of a completed or failed run one for
      every round. So s.round + 1 rounds never outnumber the longest chain, except
      that a deadlock takes one idle round more to notice. */
  lemma RoundsBoundedByChains(g: Graph, acts: seq<Action>) returns (c: seq<nat>)
    requires g != [] && After(g, acts).Some?
    ensures var s := After(g, acts).value;
      && IsChain(g, c)
      && |c| == s.round + (if s.didWork then 1 else 0)
      && (s.phase == Done || s.phase == Failed ==> |c| == s.round + 1)
      && (s.phase == Deadlocked ==> |c| == s.round)
  {
    EveryRunKeepsInv(g, acts);
    EveryRoundStarts(g, acts);
    var s := After(g, acts).value;
    if s.phase == Done { DoneRoundWorked(g, s); }
    if s.didWork {
      c := ChainOfRound(g, acts, s.round);
    } else if s.round > 0 {
      c := ChainOfRound(g, acts, s.round - 1);
    } else {
      c := [];
    }
  }

  lemma ChainOfRound(g: Graph, acts: seq<Action>, r: nat) returns (c: seq<nat>)
    requires After(g, acts).Some? && StartedIn(After(g, acts).value.log, r)
    ensures IsChain(g, c) && |c| == r + 1
  {
    var log := After(g, acts).value.log;
    var p :| 0 <= p < |log| && log[p].Start? && log[p].round == r;
    c := StartsSitOnChains(g, acts, p);
  }

  /** A scheduler that picks any enabled step until there is a verdict. */
  method Execute(g: Graph) returns (s: State, ghost acts: seq<Action>)
    ensures After(g, acts) == Some(s) && s.phase.Terminal()
    ensures s.errs == [] ==>
      (s.phase == Done <==> WellFormed(g)) && s.results.Keys == Completable(g)
  {
    s, acts := Init(g), [];
    InitInv(g);
    while !s.phase.Terminal()
      invariant After(g, acts) == Some(s) && Inv(g, s)
      decreases StepsLeft(g, s)
    {
      var step := Progress(g, s);
      var a :| Enabled(g, s, a);
      assert (acts + [a])[..|acts|] == acts;
      acts := acts + [a];
      EveryRunKeepsInv(g, acts);
      StepLowersStepsLeft(g, s, a);
      s := Apply(g, s, a);
    }
    VerdictIsExact(g, acts);
    ErrorsAreFailures(g, acts);
  }
}
