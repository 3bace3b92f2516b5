/** The autonomous goal executor: rescoring and selection, the goal life cycle
    with at most three attempts, the background loop and the explicit single run.
    Times are days on one clock; each tick happens at one instant. */
module GoalLoop {
  import opened Wrappers
  import opened WeightTuning

  datatype Status = Pending | Active | Completed | Abandoned {
    predicate Ended() { Completed? || Abandoned? }
  }

  datatype Goal = Goal(
    parentId: string,
    status: Status,
    expectedValue: real,
    attemptCount: nat,
    priority: real,
    createdAt: real,
    updatedAt: real,
    lastAttempt: Option<real>,
    completedAt: Option<real>,
    actualValue: Option<real>)

  const MAX_ATTEMPTS := 3

  const TIER_ZERO_TITLES: seq<string> := [
    "Be maximally useful to operators",
    "Improve own capabilities",
    "Maintain operational continuity",
    "Expand knowledge and world-model"]

  // ----- scoring -----

  function Clamp01(v: real): real {
    if v < 0.0 then 0.0 else if v > 1.0 then 1.0 else v
  }

  function Urgency(g: Goal, now: real): real {
    Clamp01((if g.attemptCount > 2 then 0.8 else 0.5) - (now - g.createdAt) * 0.1)
  }

  function Novelty(g: Goal): real {
    1.0 / (1.0 + g.attemptCount as real)
  }

  function Alignment(g: Goal): real {
    if g.parentId != "" && g.parentId in TIER_ZERO_TITLES then 0.8 else 0.5
  }

  function Term(x: real, weight: int): real {
    x * weight as real
  }

  function Mix(u: real, i: real, f: real, n: real, a: real, w: Weights): real {
    Term(u, w.urgency) + Term(i, w.impact) + Term(f, w.feasibility) + Term(n, w.novelty) + Term(a, w.alignment)
  }

  function Score(w: Weights, g: Goal, now: real): real {
    Mix(Urgency(g, now), g.expectedValue, 0.7, Novelty(g), Alignment(g), w) / 10000.0
  }

  lemma ProductWithin(x: real, m: real)
    requires 0.0 <= x <= 1.0 && 0.0 <= m
    ensures 0.0 <= x * m <= m
  {}

  lemma TermWithin(x: real, weight: int)
    requires 0.0 <= x <= 1.0 && 0 <= weight
    ensures 0.0 <= Term(x, weight) <= weight as real
  {
    ProductWithin(x, weight as real);
  }

  lemma NoveltyWithin(g: Goal)
    ensures 0.0 <= Novelty(g) <= 1.0
  {}

  predicate Unit(x: real) {
    0.0 <= x <= 1.0
  }

  lemma MixWithin(u: real, i: real, f: real, n: real, a: real, w: Weights)
    requires AllAtLeast(w, 0) && Unit(u) && Unit(i) && Unit(f) && Unit(n) && Unit(a)
    ensures 0.0 <= Mix(u, i, f, n, a, w) <= Sum(w) as real
  {
    TermWithin(u, w.urgency);
    TermWithin(i, w.impact);
    TermWithin(f, w.feasibility);
    TermWithin(n, w.novelty);
    TermWithin(a, w.alignment);
  }

  lemma ScoreWithin(w: Weights, g: Goal, now: real)
    requires AllAtLeast(w, 0) && 0.0 <= g.expectedValue <= 1.0
    ensures 0.0 <= Score(w, g, now) <= Sum(w) as real / 10000.0
  {
    NoveltyWithin(g);
    MixWithin(Urgency(g, now), g.expectedValue, 0.7, Novelty(g), Alignment(g), w);
  }

  /** With any weights the tuning loop can reach and expected values in [0, 1],
      scores stay between 0 and 1.0009, above the -1 that selection starts from. */
  lemma ScoreIsBounded(cycles: seq<Stats>, g: Goal, now: real)
    requires 0.0 <= g.expectedValue <= 1.0
    ensures 0.0 <= Score(After(cycles), g, now) <= 1.0009
  {
    EveryRunKeepsBounds(cycles);
    ScoreWithin(After(cycles), g, now);
  }

  /** With the same boost a younger goal is at least as urgent as an older one, and
      strictly more exactly while any urgency is left. */
  lemma UrgencyDecays(young: Goal, aged: Goal, now: real)
    requires aged.createdAt < young.createdAt <= now && (young.attemptCount > 2 <==> aged.attemptCount > 2)
    ensures Urgency(aged, now) <= Urgency(young, now)
    ensures Urgency(aged, now) < Urgency(young, now) <==> Urgency(young, now) > 0.0
  {}

  // ----- how the score moves -----

  lemma TermMoves(x: real, y: real, weight: int)
    ensures Term(y, weight) - Term(x, weight) == (y - x) * weight as real
  {}

  /** The expected value counts with the weight of impact, a Tier 0 parent adds 0.3
      of the weight of alignment. */
  lemma ScoreFollowsValueAndParent(w: Weights, g: Goal, now: real, value: real, parent: string)
    requires parent == "Be maximally useful to operators" || parent == "Improve own capabilities"
          || parent == "Maintain operational continuity" || parent == "Expand knowledge and world-model"
    ensures 10000.0 * (Score(w, g.(expectedValue := value), now) - Score(w, g, now)) == (value - g.expectedValue) * w.impact as real
    ensures 10000.0 * (Score(w, g.(parentId := parent), now) - Score(w, g.(parentId := ""), now)) == 0.3 * w.alignment as real
  {
    TermMoves(g.expectedValue, value, w.impact);
    assert parent in TIER_ZERO_TITLES by {
      assert TIER_ZERO_TITLES[0] == "Be maximally useful to operators" && TIER_ZERO_TITLES[1] == "Improve own capabilities";
      assert TIER_ZERO_TITLES[2] == "Maintain operational continuity" && TIER_ZERO_TITLES[3] == "Expand knowledge and world-model";
    }
    TermMoves(0.5, 0.8, w.alignment);
  }

  /** A day more of age costs 0.1 of the weight of urgency over the first five days;
      from then on age costs nothing. */
  lemma ScoreFollowsAge(w: Weights, g: Goal, now: real, created: real)
    requires g.attemptCount <= 2 && created <= g.createdAt <= now
    ensures now <= created + 5.0 ==>
      10000.0 * (Score(w, g, now) - Score(w, g.(createdAt := created), now)) == 0.1 * (g.createdAt - created) * w.urgency as real
    ensures g.createdAt + 5.0 <= now ==> Score(w, g, now) == Score(w, g.(createdAt := created), now)
  {
    TermMoves(Urgency(g.(createdAt := created), now), Urgency(g, now), w.urgency);
  }

  lemma NoveltyTimes(n: real, x: real)
    requires n >= 0.0
    ensures (1.0 + n) * (1.0 / (1.0 + n) * x) == x
  {}

  /** What a goal with n attempts behind it lost against the first try: the share
      n / (n + 1) of the weight of novelty. */
  lemma ScoreFollowsAttempts(w: Weights, g: Goal, now: real, n: nat)
    requires g.attemptCount == 0 && n <= 2
    ensures 10000.0 * (1.0 + n as real) * (Score(w, g, now) - Score(w, g.(attemptCount := n), now)) == n as real * w.novelty as real
  {
    var tried := g.(attemptCount := n);
    NoveltyTimes(n as real, w.novelty as real);
    assert Novelty(g) == 1.0;
    assert 10000.0 * (Score(w, g, now) - Score(w, tried, now)) == w.novelty as real - Term(Novelty(tried), w.novelty);
    Spread(1.0 + n as real, w.novelty as real, Term(Novelty(tried), w.novelty), Score(w, g, now) - Score(w, tried, now));
  }

  lemma Spread(m: real, x: real, y: real, d: real)
    requires 10000.0 * d == x - y
    ensures 10000.0 * m * d == m * x - m * y
  {}

  /** A goal just made, under the default weights. */
  lemma FreshGoalScore(g: Goal)
    requires g.attemptCount == 0 && g.parentId == ""
    ensures Score(DEFAULTS, g, g.createdAt) == 0.44 + 0.3 * g.expectedValue
  {}

  // ----- one goal's steps -----

  predicate Attemptable(g: Goal) {
    g.status == Pending && g.attemptCount < MAX_ATTEMPTS
  }

  /** What is left to try: an upper bound on the attempts this goal can still take. */
  function AttemptsLeft(g: Goal): nat {
    if Attemptable(g) then MAX_ATTEMPTS - g.attemptCount else 0
  }

  function Started(g: Goal, now: real): Goal {
    g.(attemptCount := g.attemptCount + 1, lastAttempt := Some(now), updatedAt := now)
  }

  /** A failed attempt: give up after the third, else back to pending. */
  function Failed(g: Goal, now: real): Goal {
    g.(status := if g.attemptCount >= MAX_ATTEMPTS then Abandoned else Pending, updatedAt := now)
  }

  function Judged(g: Goal, now: real, success: bool, value: real): Goal {
    if success then g.(status := Completed, actualValue := Some(value), completedAt := Some(now), updatedAt := now)
    else Failed(g, now)
  }

  /** What planning and judging turned out to be for one attempt. */
  datatype Attempt = Unplanned | Tried(success: bool, value: real)

  function LoopOutcome(g: Goal, now: real, a: Attempt): Goal {
    match a
    case Unplanned => Failed(Started(g, now), now)
    case Tried(success, value) => Judged(Started(g, now), now, success, value)
  }

  /** The explicit run leaves a goal it could not plan as it is. */
  function OnceOutcome(g: Goal, now: real, a: Attempt): Goal {
    match a
    case Unplanned => Started(g, now)
    case Tried(success, value) => Judged(Started(g, now), now, success, value)
  }

  /** How an attempt by the loop leaves a goal it may attempt: completed with value
      and time on success, abandoned on the third failure, pending before. */
  lemma AttemptDecides(g: Goal, now: real, a: Attempt)
    requires g.status == Pending && g.attemptCount < 3
    ensures var h := LoopOutcome(g, now, a);
      && h.attemptCount == g.attemptCount + 1 && h.lastAttempt == Some(now) && h.updatedAt == now
      && h.parentId == g.parentId && h.expectedValue == g.expectedValue
      && h.createdAt == g.createdAt && h.priority == g.priority
      && (h.status == Completed <==> a.Tried? && a.success)
      && (h.status == Abandoned <==> !(a.Tried? && a.success) && g.attemptCount == 2)
      && (h.status == Pending <==> !(a.Tried? && a.success) && g.attemptCount < 2)
      && (h.status == Completed ==> h.actualValue == Some(a.value) && h.completedAt == Some(now))
      && (h.status != Completed ==> h.actualValue == g.actualValue && h.completedAt == g.completedAt)
    ensures a.Tried? ==> OnceOutcome(g, now, a) == LoopOutcome(g, now, a)
    ensures a.Unplanned? ==>
      OnceOutcome(g, now, a) == g.(attemptCount := g.attemptCount + 1, lastAttempt := Some(now), updatedAt := now)
  {}

  type Goals = map<string, Goal>

  function PendingIds(goals: Goals): set<string> {
    set id | id in goals && goals[id].status == Pending
  }

  function Rescored(w: Weights, goals: Goals, now: real): Goals {
    map id | id in goals ::
      if goals[id].status == Pending then goals[id].(priority := Score(w, goals[id], now), updatedAt := now)
      else goals[id]
  }

  /** The life-cycle invariant of the background loop. */
  predicate Lively(goals: Goals) {
    forall id :: id in goals ==>
      && (goals[id].status == Pending ==> goals[id].attemptCount < MAX_ATTEMPTS)
      && goals[id].status != Active
      && (goals[id].status == Completed <==> goals[id].actualValue.Some? && goals[id].completedAt.Some?)
  }

  // ----- attempts left over the whole goal set -----

  ghost function Budget(goals: Goals, ids: set<string>): nat
    requires ids <= goals.Keys
  {
    if ids == {} then 0
    else
      var id :| id in ids;
      AttemptsLeft(goals[id]) + Budget(goals, ids - {id})
  }

  lemma {:induction false} BudgetPick(goals: Goals, ids: set<string>, id: string)
    requires ids <= goals.Keys && id in ids
    ensures Budget(goals, ids) == AttemptsLeft(goals[id]) + Budget(goals, ids - {id})
    decreases ids
  {
    var first :| first in ids && Budget(goals, ids) == AttemptsLeft(goals[first]) + Budget(goals, ids - {first});
    if first != id {
      BudgetPick(goals, ids - {first}, id);
      BudgetPick(goals, ids - {id}, first);
      assert ids - {first} - {id} == ids - {id} - {first};
    }
  }

  lemma {:induction false} BudgetAgree(a: Goals, b: Goals, ids: set<string>)
    requires ids <= a.Keys && ids <= b.Keys
    requires forall id :: id in ids ==> AttemptsLeft(a[id]) == AttemptsLeft(b[id])
    ensures Budget(a, ids) == Budget(b, ids)
    decreases ids
  {
    if ids != {} {
      var id :| id in ids;
      BudgetPick(a, ids, id);
      BudgetPick(b, ids, id);
      BudgetAgree(a, b, ids - {id});
    }
  }

  lemma {:induction false} BudgetBound(goals: Goals, ids: set<string>)
    requires ids <= goals.Keys
    ensures Budget(goals, ids) <= 3 * |PendingIn(goals, ids)|
    decreases ids
  {
    if ids != {} {
      var id :| id in ids;
      BudgetPick(goals, ids, id);
      BudgetBound(goals, ids - {id});
      OnePendingLess(goals, ids, id);
    }
  }

  function PendingIn(goals: Goals, ids: set<string>): set<string>
    requires ids <= goals.Keys
  {
    set id | id in ids && goals[id].status == Pending
  }

  lemma OnePendingLess(goals: Goals, ids: set<string>, id: string)
    requires ids <= goals.Keys && id in ids
    ensures |PendingIn(goals, ids)| == |PendingIn(goals, ids - {id})| + if goals[id].status == Pending then 1 else 0
  {
    if goals[id].status == Pending {
      assert PendingIn(goals, ids) == PendingIn(goals, ids - {id}) + {id};
    } else {
      assert PendingIn(goals, ids) == PendingIn(goals, ids - {id});
    }
  }

  /** The boost for often deferred goals never reaches a goal the loop can select. */
  lemma BoostNeverApplies(goals: Goals, id: string, now: real)
    requires Lively(goals) && id in PendingIds(goals)
    ensures Urgency(goals[id], now) == Clamp01(0.5 - (now - goals[id].createdAt) * 0.1)
  {}

  /** Attempting one goal lowers the budget of the whole set. */
  lemma AttemptLowersBudget(goals: Goals, after: Goals, id: string)
    requires id in goals && after.Keys == goals.Keys && AttemptsLeft(after[id]) < AttemptsLeft(goals[id])
    requires forall j :: j in goals && j != id ==> AttemptsLeft(after[j]) == AttemptsLeft(goals[j])
    ensures Budget(after, after.Keys) < Budget(goals, goals.Keys)
  {
    BudgetPick(goals, goals.Keys, id);
    BudgetPick(after, goals.Keys, id);
    BudgetAgree(goals, after, goals.Keys - {id});
  }

  predicate Selectable(w: Weights, goals: Goals, now: real) {
    exists id :: id in goals && goals[id].status == Pending && Score(w, goals[id], now) > -1.0
  }

  predicate TopScored(w: Weights, goals: Goals, now: real, id: string) {
    && id in PendingIds(goals)
    && Score(w, goals[id], now) > -1.0
    && forall j :: j in PendingIds(goals) ==> Score(w, goals[j], now) <= Score(w, goals[id], now)
  }

  function AfterTick(w: Weights, goals: Goals, now: real, id: string, a: Attempt): Goals
    requires id in goals
  {
    var r := Rescored(w, goals, now);
    r[id := LoopOutcome(r[id], now, a)]
  }

  predicate EndedKept(before: Goals, after: Goals) {
    && before.Keys <= after.Keys
    && forall id :: id in before && before[id].status.Ended() ==> after[id] == before[id]
  }

  lemma RescoringKeeps(w: Weights, goals: Goals, now: real)
    requires Lively(goals)
    ensures var r := Rescored(w, goals, now);
      Lively(r) && r.Keys == goals.Keys && EndedKept(goals, r) && Budget(r, r.Keys) == Budget(goals, goals.Keys)
  {
    BudgetAgree(goals, Rescored(w, goals, now), goals.Keys);
  }

  /** Rescoring gives every pending goal its score as priority and its date of
      update, and no goal anything else. */
  lemma RescoringMeans(w: Weights, goals: Goals, now: real, id: string)
    requires id in goals
    ensures var r := Rescored(w, goals, now);
      && r.Keys == goals.Keys
      && (goals[id].status != Pending ==> r[id] == goals[id])
      && (goals[id].status == Pending ==> r[id].priority == Score(w, goals[id], now) && r[id].updatedAt == now)
      && r[id].(priority := goals[id].priority, updatedAt := goals[id].updatedAt) == goals[id]
  {}

  lemma TickFacts(w: Weights, goals: Goals, now: real, id: string, a: Attempt)
    requires Lively(goals) && id in PendingIds(goals)
    ensures var after := AfterTick(w, goals, now, id, a);
      && Lively(after) && after.Keys == goals.Keys && EndedKept(goals, after)
      && Budget(after, after.Keys) < Budget(goals, goals.Keys)
  {
    RescoringKeeps(w, goals, now);
    var r := Rescored(w, goals, now);
    AttemptLowersBudget(r, AfterTick(w, goals, now, id, a), id);
  }

  class GoalExecutor {
    var goals: Goals
    var weights: Weights

    constructor (w: Weights)
      ensures goals == map[] && weights == w
    {
      goals, weights := map[], w;
    }

    /** A new goal arrives pending and untried. */
    method Save(id: string, g: Goal) returns (ok: bool)
      requires Lively(goals) && g.status == Pending && g.attemptCount == 0
      requires g.actualValue.None? && g.completedAt.None?
      modifies this`goals
      ensures Lively(goals) && (ok <==> id !in old(goals))
      ensures goals == if ok then old(goals)[id := g] else old(goals)
    {
      ok := id !in goals;
      if ok { goals := goals[id := g]; }
    }

    /** Rescores every pending goal and returns one of highest score. It finds
        none exactly when no pending goal scores above -1. */
    method SelectNext(now: real) returns (best: Option<string>)
      modifies this`goals
      ensures goals == Rescored(weights, old(goals), now)
      ensures best.None? <==> forall id :: id in PendingIds(old(goals)) ==> Score(weights, old(goals)[id], now) <= -1.0
      ensures best.Some? ==>
        && best.value in PendingIds(old(goals))
        && forall id :: id in PendingIds(old(goals)) ==>
             Score(weights, old(goals)[id], now) <= Score(weights, old(goals)[best.value], now)
    {
      ghost var was, after := goals, Rescored(weights, goals, now);
      var todo := PendingIds(goals);
      ghost var pending := todo;
      best := None;
      var bestScore := -1.0;
      while todo != {}
        invariant todo <= pending && goals.Keys == was.Keys
        invariant forall id :: id in was ==>
          goals[id] == if id in pending && id !in todo then after[id] else was[id]
        invariant best.None? ==> bestScore == -1.0
        invariant best.Some? ==> best.value in pending && bestScore == Score(weights, was[best.value], now) > -1.0
        invariant forall id :: id in pending && id !in todo ==> Score(weights, was[id], now) <= bestScore
        decreases todo
      {
        var id :| id in todo;
        todo := todo - {id};
        var g := goals[id].(priority := Score(weights, goals[id], now), updatedAt := now);
        goals := goals[id := g];
        if g.priority > bestScore {
          bestScore := g.priority;
          best := Some(id);
        }
      }
    }

    /** One tick of the background loop: it works exactly when some pending goal
        scores above -1, lowers the budget when it does, and never touches a goal
        that has ended. */
    method Tick(now: real, a: Attempt) returns (worked: bool)
      requires Lively(goals)
      modifies this`goals
      ensures Lively(goals) && goals.Keys == old(goals).Keys
      ensures worked <==> Selectable(weights, old(goals), now)
      ensures !worked ==> goals == Rescored(weights, old(goals), now)
      ensures worked ==> exists id :: TopScored(weights, old(goals), now, id)
                                      && goals == AfterTick(weights, old(goals), now, id, a)
      ensures worked ==> Budget(goals, goals.Keys) < Budget(old(goals), old(goals).Keys)
      ensures Budget(goals, goals.Keys) <= Budget(old(goals), old(goals).Keys)
      ensures EndedKept(old(goals), goals)
    {
      ghost var was := goals;
      var best := SelectNext(now);
      RescoringKeeps(weights, was, now);
      if best.None? { return false; }
      var id := best.value;
      assert TopScored(weights, was, now, id);
      TickFacts(weights, was, now, id, a);
      Work(id, now, a);
      worked := true;
    }

    /** What the loop does with the goal it selected. */
    method Work(id: string, now: real, a: Attempt)
      requires id in goals
      modifies this`goals
      ensures goals == old(goals)[id := LoopOutcome(old(goals)[id], now, a)]
    {
      Begin(id, now);
      if a.Unplanned? {
        GiveUpOrRetry(id, now);
      } else {
        Execute(id, now, a.success, a.value);
      }
    }

    method Begin(id: string, now: real)
      requires id in goals
      modifies this`goals
      ensures goals == old(goals)[id := Started(old(goals)[id], now)]
    {
      var g := goals[id];
      g := g.(attemptCount := g.attemptCount + 1, lastAttempt := Some(now), updatedAt := now);
      goals := goals[id := g];
    }

    method GiveUpOrRetry(id: string, now: real)
      requires id in goals
      modifies this`goals
      ensures goals == old(goals)[id := Failed(old(goals)[id], now)]
    {
      var g := goals[id];
      if g.attemptCount >= MAX_ATTEMPTS {
        g := g.(status := Abandoned, updatedAt := now);
      } else {
        g := g.(status := Pending, updatedAt := now);
      }
      goals := goals[id := g];
    }

    /** The life cycle of one attempt: active, then completed, abandoned or pending. */
    method Execute(id: string, now: real, success: bool, value: real)
      requires id in goals
      modifies this`goals
      ensures goals == old(goals)[id := Judged(old(goals)[id], now, success, value)]
    {
      var g := goals[id].(status := Active, updatedAt := now);
      goals := goals[id := g];
      if success {
        g := g.(status := Completed, actualValue := Some(value), completedAt := Some(now), updatedAt := now);
        goals := goals[id := g];
      } else {
        GiveUpOrRetry(id, now);
      }
    }

    /** The explicit single run, which does not undo a failed planning step. */
    method RunOnce(now: real, a: Attempt) returns (worked: bool)
      modifies this`goals
      ensures worked <==> Selectable(weights, old(goals), now)
      ensures !worked ==> goals == Rescored(weights, old(goals), now)
      ensures worked ==> exists id :: TopScored(weights, old(goals), now, id)
                                      && goals == AfterOnce(weights, old(goals), now, id, a)
    {
      ghost var was := goals;
      var best := SelectNext(now);
      if best.None? { return false; }
      var id := best.value;
      assert TopScored(weights, was, now, id);
      ghost var scored := goals;
      Begin(id, now);
      if a.Tried? {
        Execute(id, now, a.success, a.value);
      }
      assert goals == scored[id := OnceOutcome(scored[id], now, a)];
      worked := true;
    }

    /** The goals still pending after more than two attempts. */
    method SystematicallyPending() returns (ids: set<string>)
      ensures forall id :: id in ids <==> id in goals && goals[id].status == Pending && goals[id].attemptCount > 2
      ensures Lively(goals) ==> ids == {}
    {
      ids := set id | id in goals && goals[id].status == Pending && goals[id].attemptCount > 2;
    }

    /** The background loop with no new goals, its clock and outcomes arbitrary:
        after as many working ticks as the budget allows, it has gone quiet, and
        when it does no pending goal scores above -1. */
    method RunUntilQuiet(clock: nat -> real, outcome: nat -> Attempt) returns (ticks: nat)
      requires Lively(goals)
      modifies this`goals
      ensures Lively(goals) && goals.Keys == old(goals).Keys && EndedKept(old(goals), goals)
      ensures ticks <= 3 * |PendingIds(old(goals))|
      ensures !Selectable(weights, goals, clock(ticks))
    {
      BudgetBound(goals, goals.Keys);
      assert PendingIn(goals, goals.Keys) == PendingIds(goals);
      ticks := 0;
      var working := true;
      while working
        invariant Lively(goals) && goals.Keys == old(goals).Keys && EndedKept(old(goals), goals)
        invariant Budget(goals, goals.Keys) + ticks <= Budget(old(goals), old(goals).Keys)
        invariant !working ==> !Selectable(weights, goals, clock(ticks))
        decreases Budget(goals, goals.Keys), working
      {
        ghost var was := goals;
        working := Tick(clock(ticks), outcome(ticks));
        if working {
          ticks := ticks + 1;
        } else {
          QuietStaysQuiet(weights, was, clock(ticks));
        }
      }
    }
  }

  lemma QuietStaysQuiet(w: Weights, goals: Goals, now: real)
    requires !Selectable(w, goals, now)
    ensures !Selectable(w, Rescored(w, goals, now), now)
  {
    var r := Rescored(w, goals, now);
    forall id | id in r && r[id].status == Pending ensures Score(w, r[id], now) <= -1.0 {
      assert Score(w, r[id], now) == Score(w, goals[id], now);
    }
  }

  /** With reachable weights and expected values in [0, 1], as the synthesizer
      demands, a quiet loop has nothing pending; otherwise it may leave a goal behind. */
  lemma QuietMeansNonePending(cycles: seq<Stats>, goals: Goals, now: real)
    requires forall id :: id in goals ==> 0.0 <= goals[id].expectedValue <= 1.0
    ensures !Selectable(After(cycles), goals, now) <==> PendingIds(goals) == {}
  {
    var w := After(cycles);
    forall id | id in PendingIds(goals) ensures Score(w, goals[id], now) > -1.0 {
      ScoreIsBounded(cycles, goals[id], now);
    }
    AllAboveMeansSelectable(w, goals, now);
  }

  lemma AllAboveMeansSelectable(w: Weights, goals: Goals, now: real)
    requires forall id :: id in PendingIds(goals) ==> Score(w, goals[id], now) > -1.0
    ensures Selectable(w, goals, now) <==> PendingIds(goals) != {}
  {
    if Selectable(w, goals, now) {
      var id :| id in goals && goals[id].status == Pending;
      assert id in PendingIds(goals);
    }
    if PendingIds(goals) != {} {
      var id :| id in PendingIds(goals);
      assert goals[id].status == Pending && Score(w, goals[id], now) > -1.0;
    }
  }

  function AfterOnce(w: Weights, goals: Goals, now: real, id: string, a: Attempt): Goals
    requires id in goals
  {
    var r := Rescored(w, goals, now);
    r[id := OnceOutcome(r[id], now, a)]
  }

  function FailToPlan(g: Goal, times: seq<real>): Goal {
    if times == [] then g
    else OnceOutcome(FailToPlan(g, times[..|times| - 1]), times[|times| - 1], Unplanned)
  }

  /** Explicit runs that cannot plan keep a goal pending for ever: attempts have
      no bound, and from the third on the loop's invariant is broken. */
  lemma {:induction false} RunOnceHasNoAttemptLimit(g: Goal, times: seq<real>)
    requires Attemptable(g)
    ensures var h := FailToPlan(g, times);
      && h.status == Pending && h.attemptCount == g.attemptCount + |times|
      && (Attemptable(h) <==> g.attemptCount + |times| < MAX_ATTEMPTS)
  {
    if times != [] { RunOnceHasNoAttemptLimit(g, times[..|times| - 1]); }
  }

  /** A goal the loop itself works on is settled after at most three attempts. */
  lemma ThirdAttemptSettles(g: Goal, t1: real, a1: Attempt, t2: real, a2: Attempt, t3: real, a3: Attempt)
    requires Attemptable(g)
    ensures var g1 := LoopOutcome(g, t1, a1); var g2 := LoopOutcome(g1, t2, a2);
      g1.status.Ended() || g2.status.Ended() || LoopOutcome(g2, t3, a3).status.Ended()
  {}
}
