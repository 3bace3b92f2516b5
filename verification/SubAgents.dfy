/** The sub-agent manager: spawning, the goroutine that runs each agent, killing
    and cleaning up. Every method and the goroutine's last part hold the lock, so
    a run is a sequence of whole steps in any order. A record outlives its entry
    in the map as long as its goroutine can still reach it: a reference to a
    record is its position in a growing table. */
module SubAgents {
  import opened Sets
  import opened Wrappers

  datatype Status = Running | Completed | Failed | Killed

  datatype GoalResult = GoalResult(goalId: string, success: bool, output: string)

  datatype Record = Record(id: string, status: Status, startTime: int, endTime: Option<int>,
                           result: Option<GoalResult>, error: Option<string>)

  /** `pending` are the records whose goroutine has not yet ended. */
  datatype State = State(records: seq<Record>, live: map<string, nat>, pending: set<nat>)

  datatype Action =
    | Spawn(id: string, now: int)
    | Return(r: nat, outcome: Result<GoalResult, string>, now: int)
    | Kill(id: string, now: int)
    | Cleanup

  const EMPTY := State([], map[], {})

  predicate CanSpawn(maxAgents: int, s: State, id: string) {
    |s.live| < maxAgents && id !in s.live
  }

  function Fresh(id: string, now: int): Record {
    Record(id, Running, now, None, None, None)
  }

  function Ended(a: Record, outcome: Result<GoalResult, string>, now: int): Record {
    match outcome
    case Ok(result) => a.(endTime := Some(now), status := Completed, result := Some(result))
    case Err(e) => a.(endTime := Some(now), status := Failed, error := Some(e))
  }

  predicate Enabled(s: State, a: Action) {
    a.Return? ==> a.r in s.pending && a.r < |s.records|
  }

  predicate LiveInRange(s: State) {
    forall id :: id in s.live ==> s.live[id] < |s.records|
  }

  function WithStatus(s: State, status: Status): (ids: set<string>)
    requires LiveInRange(s)
    ensures forall id :: id in ids <==> id in s.live && s.records[s.live[id]].status == status
  {
    set id | id in s.live && s.records[s.live[id]].status == status
  }

  /** The entries Cleanup keeps. */
  function StillRunning(s: State): map<string, nat>
    requires LiveInRange(s)
  {
    map id | id in s.live && s.records[s.live[id]].status == Running :: s.live[id]
  }

  function Apply(maxAgents: int, s: State, a: Action): State
    requires Enabled(s, a) && LiveInRange(s)
  {
    match a
    case Spawn(id, now) =>
      if CanSpawn(maxAgents, s, id) then
        var r := |s.records|;
        State(s.records + [Fresh(id, now)], s.live[id := r], s.pending + {r})
      else s
    case Return(r, outcome, now) =>
      // Only a killed record is left alone.
      s.(pending := s.pending - {r},
         records := if s.records[r].status == Killed then s.records else s.records[r := Ended(s.records[r], outcome, now)])
    case Kill(id, now) =>
      if id in s.live && s.records[s.live[id]].status == Running then
        s.(records := s.records[s.live[id] := s.records[s.live[id]].(status := Killed, endTime := Some(now))])
      else s
    case Cleanup => s.(live := StillRunning(s))
  }

  /** What holds between steps. Running records are live and have a goroutine; a
      goroutine not yet ended belongs to a running or killed record; a record has
      an end time exactly when it is not running, a result exactly when it
      completed and an error exactly when it failed. */
  ghost predicate Inv(maxAgents: int, s: State) {
    && LiveInRange(s)
    && |s.live| <= (if maxAgents > 0 then maxAgents else 0)
    && (forall id :: id in s.live ==> s.records[s.live[id]].id == id)
    && (forall r :: r in s.pending ==> r < |s.records|)
    && forall r :: 0 <= r < |s.records| ==> RecordOk(s, r)
  }

  ghost predicate RecordOk(s: State, r: nat)
    requires r < |s.records|
  {
    var a := s.records[r];
    && (a.status == Running ==> a.id in s.live && s.live[a.id] == r && r in s.pending)
    && (r in s.pending ==> a.status == Running || a.status == Killed)
    && (a.endTime.Some? <==> a.status != Running)
    && (a.result.Some? <==> a.status == Completed)
    && (a.error.Some? <==> a.status == Failed)
  }

  lemma StepKeepsInv(maxAgents: int, s: State, a: Action)
    requires Inv(maxAgents, s) && Enabled(s, a)
    ensures Inv(maxAgents, Apply(maxAgents, s, a))
  {
    var s' := Apply(maxAgents, s, a);
    if a.Cleanup? {
      SubsetCardinality(s'.live.Keys, s.live.Keys);
    }
    forall r | 0 <= r < |s'.records| ensures RecordOk(s', r) {
      if r < |s.records| { assert RecordOk(s, r); }
    }
  }

  /** The state after a run, or None when the run takes an impossible step. */
  ghost function After(maxAgents: int, acts: seq<Action>): (s: Option<State>)
    ensures s.Some? ==> Inv(maxAgents, s.value)
  {
    if acts == [] then Some(EMPTY)
    else
      var before := After(maxAgents, acts[..|acts| - 1]);
      var a := acts[|acts| - 1];
      if before.None? || !Enabled(before.value, a) then None
      else
        StepKeepsInv(maxAgents, before.value, a);
        Some(Apply(maxAgents, before.value, a))
  }

  /** A record keeps its identity; once it has stopped running it never changes. */
  predicate Kept(a: Record, later: Record) {
    && later.id == a.id && later.startTime == a.startTime
    && (a.status != Running ==> later == a)
  }

  ghost predicate Settles(s: State, later: State) {
    |s.records| <= |later.records| && forall r :: 0 <= r < |s.records| ==> Kept(s.records[r], later.records[r])
  }

  lemma StepSettles(maxAgents: int, s: State, a: Action)
    requires Inv(maxAgents, s) && Enabled(s, a)
    ensures Settles(s, Apply(maxAgents, s, a))
  {
    if a.Return? { assert RecordOk(s, a.r); }
  }

  /** Over every run and every continuation of it: a record leaves "running" at
      most once, and its outcome is final from then on. */
  lemma {:induction false} OutcomesAreFinal(maxAgents: int, acts: seq<Action>, more: seq<Action>)
    requires After(maxAgents, acts + more).Some?
    ensures After(maxAgents, acts).Some?
    ensures Settles(After(maxAgents, acts).value, After(maxAgents, acts + more).value)
  {
    if more == [] {
      assert acts + more == acts;
    } else {
      var n := |more| - 1;
      assert (acts + more)[..|acts + more| - 1] == acts + more[..n];
      OutcomesAreFinal(maxAgents, acts, more[..n]);
      StepSettles(maxAgents, After(maxAgents, acts + more[..n]).value, more[n]);
    }
  }

  function RunningRecords(s: State): set<nat> {
    set r | 0 <= r < |s.records| && s.records[r].status == Running
  }

  /** However the steps interleave, at most maxAgents records are in the map and
      at most that many run. */
  lemma AtMostMaxAgents(maxAgents: int, acts: seq<Action>)
    requires After(maxAgents, acts).Some?
    ensures var s := After(maxAgents, acts).value;
      |RunningRecords(s)| <= |s.live| <= if maxAgents > 0 then maxAgents else 0
  {
    var s := After(maxAgents, acts).value;
    forall r | r in RunningRecords(s) ensures r in s.live.Values {
      assert RecordOk(s, r);
      assert s.records[r].id in s.live.Keys;
    }
    ValuesBound(RunningRecords(s), s.live);
  }

  lemma {:induction false} ValuesBound<K, V>(values: set<V>, m: map<K, V>)
    requires values <= m.Values
    ensures |values| <= |m|
    decreases |m|
  {
    if values != {} {
      var v :| v in values;
      var k :| k in m && m[k] == v;
      var rest := m - {k};
      assert m.Keys == rest.Keys + {k};
      forall x | x in values - {v} ensures x in rest.Values {
        var j :| j in m && m[j] == x;
        assert j in rest.Keys;
      }
      ValuesBound(values - {v}, rest);
    }
  }

  /** A goroutine that returns after its agent was killed, cleaned up and replaced
      by another with the same ID changes no record and no entry; one that returns
      in time changes its own record only. */
  lemma LateReturnIsHarmless(maxAgents: int, s: State, a: Action)
    requires Inv(maxAgents, s) && Enabled(s, a) && a.Return?
    ensures var s' := Apply(maxAgents, s, a);
      && s'.live == s.live
      && (forall r :: 0 <= r < |s.records| && r != a.r ==> s'.records[r] == s.records[r])
      && (s.records[a.r].id !in s.live || s.live[s.records[a.r].id] != a.r ==> s'.records == s.records)
  {
    assert RecordOk(s, a.r);
  }

  ghost predicate Holds(s: State, later: State) {
    forall id :: id in s.live ==> id in later.live && later.live[id] == s.live[id]
  }

  lemma StepHolds(maxAgents: int, s: State, a: Action)
    requires Inv(maxAgents, s) && Enabled(s, a) && !a.Cleanup?
    ensures Holds(s, Apply(maxAgents, s, a))
  {}

  /** Without a Cleanup no ID is freed: a killed or finished agent keeps its slot. */
  lemma {:induction false} SlotsAreHeld(maxAgents: int, acts: seq<Action>, more: seq<Action>)
    requires After(maxAgents, acts + more).Some? && forall k :: 0 <= k < |more| ==> !more[k].Cleanup?
    ensures After(maxAgents, acts).Some?
    ensures Holds(After(maxAgents, acts).value, After(maxAgents, acts + more).value)
  {
    if more == [] {
      assert acts + more == acts;
    } else {
      var n := |more| - 1;
      assert (acts + more)[..|acts + more| - 1] == acts + more[..n];
      SlotsAreHeld(maxAgents, acts, more[..n]);
      StepHolds(maxAgents, After(maxAgents, acts + more[..n]).value, more[n]);
    }
  }

  // ----- the manager -----

  class AgentManager {
    var records: seq<Record>
    var agents: map<string, nat>
    ghost var pending: set<nat>
    const maxAgents: int

    ghost function View(): State
      reads this
    {
      State(records, agents, pending)
    }

    ghost predicate Valid()
      reads this
    {
      Inv(maxAgents, View())
    }

    constructor (maxAgents: int)
      ensures Valid() && View() == EMPTY && this.maxAgents == maxAgents
    {
      records, agents, pending := [], map[], {};
      this.maxAgents := maxAgents;
    }

    method Spawn(id: string, now: int) returns (r: Result<nat, string>)
      requires Valid()
      modifies this
      ensures Valid() && View() == Apply(maxAgents, old(View()), Action.Spawn(id, now))
      ensures r.Ok? <==> old(|agents|) < maxAgents && id !in old(agents)
      ensures r == Err("max agent count reached") <==> old(|agents|) >= maxAgents
      ensures r.Ok? ==>
        && r.value == old(|records|) && agents == old(agents)[id := r.value] && pending == old(pending) + {r.value}
        && records == old(records) + [Record(id, Running, now, None, None, None)]
      ensures r.Err? ==> records == old(records) && agents == old(agents) && pending == old(pending)
    {
      StepKeepsInv(maxAgents, View(), Action.Spawn(id, now));
      if |agents| >= maxAgents { return Err("max agent count reached"); }
      if id in agents { return Err("already exists"); }
      r := Ok(|records|);
      agents := agents[id := |records|];
      pending := pending + {|records|};
      records := records + [Fresh(id, now)];
    }

    /** The goroutine's part under the lock, once the runner has returned. */
    method Finish(r: nat, outcome: Result<GoalResult, string>, now: int)
      requires Valid() && r in pending
      modifies this
      ensures Valid() && View() == Apply(maxAgents, old(View()), Return(r, outcome, now))
      ensures agents == old(agents) && pending == old(pending) - {r}
      ensures old(records)[r].status == Killed ==> records == old(records)
      ensures old(records)[r].status != Killed ==>
        var was := old(records)[r];
        records == old(records)[r := match outcome
          case Ok(result) => Record(was.id, Completed, was.startTime, Some(now), Some(result), was.error)
          case Err(e) => Record(was.id, Failed, was.startTime, Some(now), was.result, Some(e))]
    {
      assert r < |records|;
      StepKeepsInv(maxAgents, View(), Return(r, outcome, now));
      pending := pending - {r};
      if records[r].status == Killed { return; }
      var a := records[r].(endTime := Some(now));
      match outcome {
        case Err(e) => a := a.(status := Failed, error := Some(e));
        case Ok(result) => a := a.(status := Completed, result := Some(result));
      }
      records := records[r := a];
    }

    method Kill(id: string, now: int) returns (found: bool)
      requires Valid()
      modifies this
      ensures Valid() && View() == Apply(maxAgents, old(View()), Action.Kill(id, now))
      ensures found <==> id in old(agents)
      ensures agents == old(agents) && pending == old(pending)
      ensures id in old(agents) && old(records)[old(agents)[id]].status == Running ==>
        var was := old(records)[old(agents)[id]];
        records == old(records)[old(agents)[id] := Record(was.id, Killed, was.startTime, Some(now), was.result, was.error)]
      ensures !(id in old(agents) && old(records)[old(agents)[id]].status == Running) ==> records == old(records)
    {
      StepKeepsInv(maxAgents, View(), Action.Kill(id, now));
      if id !in agents { return false; }
      var r := agents[id];
      if records[r].status == Running {
        records := records[r := records[r].(status := Killed, endTime := Some(now))];
      }
      return true;
    }

    /** One poll of Collect: None while the agent is running. */
    method Poll(id: string) returns (r: Option<Result<GoalResult, string>>)
      requires Valid()
      ensures r.None? <==> id in agents && records[agents[id]].status == Running
      ensures r.Some? && r.value.Ok? <==> id in agents && records[agents[id]].status == Completed
      ensures r.Some? && r.value.Ok? ==> Some(r.value.value) == records[agents[id]].result
    {
      if id !in agents { return Some(Err("not found")); }
      var a := records[agents[id]];
      assert RecordOk(View(), agents[id]);
      match a.status {
        case Completed => r := Some(Ok(a.result.value));
        case Failed => r := Some(Err("failed: " + a.error.value));
        case Killed => r := Some(Err("was killed"));
        case Running => r := None;
      }
    }

    method Count(status: Status) returns (n: nat)
      requires LiveInRange(View())
      ensures n == |WithStatus(View(), status)|
    {
      n := 0;
      var todo := agents.Keys;
      ghost var seen: set<string> := {};
      while todo != {}
        invariant todo <= agents.Keys && n == |seen| && todo !! seen
        invariant forall id :: id in agents && id !in todo ==> (id in seen <==> id in WithStatus(View(), status))
        invariant seen <= agents.Keys
        decreases todo
      {
        var id :| id in todo;
        todo := todo - {id};
        if records[agents[id]].status == status {
          n, seen := n + 1, seen + {id};
        }
      }
      assert seen == WithStatus(View(), status);
    }

    /** The loop of Cleanup. */
    method RemoveEnded() returns (removed: nat)
      requires LiveInRange(View())
      modifies this`agents
      ensures agents == StillRunning(old(View())) && removed == old(|agents|) - |agents|
    {
      removed := 0;
      var todo := agents.Keys;
      ghost var s := View();
      while todo != {}
        invariant todo <= agents.Keys <= s.live.Keys && removed == |s.live| - |agents|
        invariant forall id :: id in agents ==> agents[id] == s.live[id]
        invariant forall id :: id in s.live && id !in todo ==> (id in agents <==> id in StillRunning(s))
        decreases todo
      {
        var id :| id in todo;
        todo := todo - {id};
        if records[agents[id]].status != Running {
          ghost var before := agents;
          agents := agents - {id};
          assert before.Keys == agents.Keys + {id};
          removed := removed + 1;
        }
      }
      assert agents == StillRunning(s);
    }

    /** Returns how many entries went. */
    method Cleanup() returns (removed: nat)
      requires Valid()
      modifies this
      ensures Valid() && View() == Apply(maxAgents, old(View()), Action.Cleanup)
      ensures removed == old(|agents|) - |agents| && records == old(records) && pending == old(pending)
      ensures forall id :: id in agents <==> id in old(agents) && old(records)[old(agents)[id]].status == Running
      ensures forall id :: id in agents ==> agents[id] == old(agents)[id]
    {
      StepKeepsInv(maxAgents, View(), Action.Cleanup);
      removed := RemoveEnded();
    }
  }
}
