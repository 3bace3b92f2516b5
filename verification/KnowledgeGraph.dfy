/** The knowledge graph store: an entity table, a relation table, their upsert
    rules, confidence decay and the bounded path query. */
module KnowledgeGraph {
  import opened Wrappers
  import opened Strings
  import opened PathStrings
  import opened Walks

  type Properties = map<string, string>

  /** Times are days on one clock. */
  datatype Entity = Entity(id: Uuid, kind: string, name: string, properties: Properties,
                           createdAt: real, updatedAt: real, confidence: real, source: string)

  datatype Relation = Relation(id: Uuid, fromEntity: Uuid, toEntity: Uuid, relType: string,
                               properties: Properties, confidence: real, createdAt: real)

  datatype EntityInput = EntityInput(name: string, kind: string, properties: Properties)

  datatype RelationInput = RelationInput(from: string, to: string, relType: string, properties: Properties)

  datatype QueryResult = QueryResult(entities: seq<Entity>, relations: seq<Relation>, path: seq<Entity>, confidence: real)

  datatype StoreError = InsertFailed | FromNotFound | ToNotFound

  /** One row of the recursive path table. */
  datatype Row = Row(id: Uuid, path: string, depth: nat)

  method CopyInto<K(==), V>(target: map<K, V>, source: map<K, V>) returns (merged: map<K, V>)
    ensures merged == target + source
  {
    merged := target;
    var todo := source.Keys;
    ghost var copied: set<K> := {};
    while todo != {}
      invariant todo + copied == source.Keys && todo !! copied
      invariant merged.Keys == target.Keys + copied
      invariant forall k :: k in merged.Keys ==> merged[k] == if k in copied then source[k] else target[k]
      decreases todo
    {
      var k :| k in todo;
      merged := merged[k := source[k]];
      copied := copied + {k};
      todo := todo - {k};
    }
    assert copied == source.Keys;
  }

  /** The incoming value wins wherever both maps have one. */
  method MergeProperties(existing: Properties, incoming: Properties) returns (merged: Properties)
    ensures merged == existing + incoming
  {
    merged := CopyInto(map[], existing);
    merged := CopyInto(merged, incoming);
  }

  // ----- confidence decay -----

  predicate Stale(e: Entity, now: real) {
    e.updatedAt < now - 30.0 && e.confidence > 0.0
  }

  function Decayed(e: Entity, now: real): Entity {
    if Stale(e, now) then
      var lowered := e.confidence - 0.1 * (now - e.updatedAt - 30.0);
      e.(confidence := if lowered < 0.0 then 0.0 else lowered, updatedAt := now)
    else e
  }

  /** Decay touches the confidence and the date of update and nothing else: a row
      not updated for more than 30 days loses 0.1 a day beyond them, down to 0. */
  lemma DecayMeans(e: Entity, now: real, days: real)
    requires days == now - e.updatedAt
    ensures var d := Decayed(e, now);
      && d.id == e.id && d.name == e.name && d.kind == e.kind && d.properties == e.properties
      && d.source == e.source && d.createdAt == e.createdAt
      && d.updatedAt == (if days > 30.0 && e.confidence > 0.0 then now else e.updatedAt)
      && (days <= 30.0 || e.confidence <= 0.0 ==> d.confidence == e.confidence)
      && (days > 30.0 && e.confidence > 0.0 ==>
            d.confidence == if 10.0 * e.confidence < days - 30.0 then 0.0 else e.confidence - 0.1 * (days - 30.0))
  {}

  function StaleIds(rows: map<Uuid, Entity>, now: real): set<Uuid> {
    set id | id in rows && Stale(rows[id], now)
  }

  /** Decay run again within 30 days of a decay changes nothing. */
  lemma DecayRestsThirtyDays(e: Entity, t1: real, t2: real)
    requires Stale(e, t1) && t1 <= t2 <= t1 + 30.0
    ensures Decayed(Decayed(e, t1), t2) == Decayed(e, t1)
  {}

  function DecayedBy(e: Entity, times: seq<real>): Entity
    decreases |times|
  {
    if times == [] then e else DecayedBy(Decayed(e, times[0]), times[1..])
  }

  /** Whatever the schedule, decay rewrites the confidence and the date of update only. */
  lemma {:induction false} DecayRewritesTwoFields(e: Entity, times: seq<real>)
    ensures var d := DecayedBy(e, times); d == e.(confidence := d.confidence, updatedAt := d.updatedAt)
    decreases |times|
  {
    if times != [] { DecayRewritesTwoFields(Decayed(e, times[0]), times[1..]); }
  }

  predicate Ascending(times: seq<real>) {
    forall i, j :: 0 <= i < j < |times| ==> times[i] <= times[j]
  }

  /** The days of decay a schedule of runs charges, by the dates alone: a run more
      than 30 days after the last update charges the excess and restarts the count. */
  function DaysCharged(updated: real, times: seq<real>): real
    decreases |times|
  {
    if times == [] then 0.0
    else if times[0] > updated + 30.0 then times[0] - updated - 30.0 + DaysCharged(times[0], times[1..])
    else DaysCharged(updated, times[1..])
  }

  function EffectiveRuns(updated: real, times: seq<real>): nat
    decreases |times|
  {
    if times == [] then 0
    else if times[0] > updated + 30.0 then 1 + EffectiveRuns(times[0], times[1..])
    else EffectiveRuns(updated, times[1..])
  }

  lemma {:induction false} ChargeNonNegative(updated: real, times: seq<real>)
    ensures DaysCharged(updated, times) >= 0.0
    decreases |times|
  {
    if times != [] {
      ChargeNonNegative(if times[0] > updated + 30.0 then times[0] else updated, times[1..]);
    }
  }

  /** What any schedule of runs leaves of a confidence. */
  lemma {:induction false} ScheduleDecays(e: Entity, times: seq<real>)
    ensures var left := e.confidence - 0.1 * DaysCharged(e.updatedAt, times);
      DecayedBy(e, times).confidence == if e.confidence <= 0.0 then e.confidence else if left < 0.0 then 0.0 else left
    decreases |times|
  {
    if times != [] {
      ScheduleDecays(Decayed(e, times[0]), times[1..]);
      ChargeNonNegative(times[0], times[1..]);
    }
  }

  predicate SomeEarlyRun(updated: real, times: seq<real>, t: real) {
    exists j :: 0 <= j < |times| && updated + 30.0 < times[j] < t
  }

  /** Earlier runs never add to what one run at t would charge, and charge less
      exactly when one of them comes before t but after the 30 days. */
  lemma {:induction false} EarlyRunsChargeLess(updated: real, times: seq<real>, t: real)
    requires Ascending(times + [t])
    ensures DaysCharged(updated, times + [t]) <= DaysCharged(updated, [t])
    ensures DaysCharged(updated, times + [t]) < DaysCharged(updated, [t]) <==> SomeEarlyRun(updated, times, t)
    decreases |times|
  {
    if times == [] {
      assert times + [t] == [t];
    } else {
      var all, rest := times + [t], times[1..];
      assert all[0] == times[0] && all[1..] == rest + [t];
      assert times[0] <= t by { assert all[0] <= all[|times|]; }
      forall i, j | 0 <= i < j < |rest + [t]| ensures (rest + [t])[i] <= (rest + [t])[j] {
        assert all[i + 1] <= all[j + 1];
      }
      var from := if times[0] > updated + 30.0 then times[0] else updated;
      EarlyRunsChargeLess(from, rest, t);
      ChargeNonNegative(from, rest + [t]);
      if j :| 0 <= j < |rest| && updated + 30.0 < rest[j] < t { assert times[j + 1] == rest[j]; }
      if j :| 0 <= j < |times| && updated + 30.0 < times[j] < t {
        if j > 0 { assert rest[j - 1] == times[j] && all[0] <= all[j]; }
      }
    }
  }

  lemma OneRun(e: Entity, t: real)
    ensures var left := e.confidence - 0.1 * DaysCharged(e.updatedAt, [t]);
      Decayed(e, t).confidence == if e.confidence <= 0.0 then e.confidence else if left < 0.0 then 0.0 else left
  {
    ScheduleDecays(e, [t]);
    assert [t][1..] == [];
    assert DecayedBy(e, [t]) == DecayedBy(Decayed(e, t), []);
  }

  /** The documented "10% per day after 30 days" holds for a single run at t. Runs
      before it leave at least as much, and more exactly when one of them came
      after the 30 days but before t and the days charged do not use up the
      confidence. */
  lemma EarlyDecayProtects(e: Entity, times: seq<real>, t: real)
    requires Ascending(times + [t])
    ensures DecayedBy(e, times + [t]).confidence >= Decayed(e, t).confidence
    ensures DecayedBy(e, times + [t]).confidence > Decayed(e, t).confidence <==>
      SomeEarlyRun(e.updatedAt, times, t) && e.confidence > 0.1 * DaysCharged(e.updatedAt, times + [t])
  {
    ScheduleDecays(e, times + [t]);
    OneRun(e, t);
    EarlyRunsChargeLess(e.updatedAt, times, t);
    ChargeNonNegative(e.updatedAt, times + [t]);
  }

  /** An example: full confidence, runs after 31 and 60 days. */
  lemma EarlyRunExample(e: Entity)
    requires e.confidence == 1.0 && e.updatedAt == 0.0
    ensures DecayedBy(e, [31.0, 60.0]).confidence == 0.9 && Decayed(e, 60.0).confidence == 0.0
  {
    assert [31.0, 60.0][1..] == [60.0] && [60.0][1..] == [];
    assert DaysCharged(31.0, [60.0]) == DaysCharged(31.0, []);
    ScheduleDecays(e, [31.0, 60.0]);
  }

  predicate AtMostApart(prev: real, times: seq<real>, d: real)
    decreases |times|
  {
    times != [] ==> prev <= times[0] <= prev + d && AtMostApart(times[0], times[1..], d)
  }

  lemma {:induction false} FrequentRunsCharge(updated: real, prev: real, times: seq<real>, d: real)
    requires updated <= prev <= updated + 30.0 && d >= 0.0 && AtMostApart(prev, times, d)
    ensures DaysCharged(updated, times) <= EffectiveRuns(updated, times) as real * d
    ensures 30.0 * EffectiveRuns(updated, times) as real <= (if times == [] then prev else times[|times| - 1]) - updated
    decreases |times|
  {
    if times != [] {
      var rest := times[1..];
      var from := if times[0] > updated + 30.0 then times[0] else updated;
      FrequentRunsCharge(from, times[0], rest, d);
      if times[0] > updated + 30.0 { OneMore(EffectiveRuns(from, rest), d); }
    }
  }

  lemma OneMore(n: nat, d: real)
    ensures (1 + n) as real * d == d + n as real * d
  {}

  lemma SlowCharge(updated: real, times: seq<real>, d: real, span: real, limit: real)
    requires times != [] && d >= 0.0 && AtMostApart(updated, times, d)
    requires span == times[|times| - 1] - updated && limit == d * span
    ensures 0.0 <= 30.0 * DaysCharged(updated, times) <= limit
  {
    FrequentRunsCharge(updated, updated, times, d);
    ChargeNonNegative(updated, times);
    var n := EffectiveRuns(updated, times) as real;
    ScaledSpan(n, d, span, n * d, limit);
  }

  /** Over every schedule with runs at most d days apart, thirty days take at most
      0.1 * d of confidence; with daily runs 10% in thirty days, not in one. */
  lemma FrequentRunsDecaySlowly(e: Entity, times: seq<real>, d: real)
    requires times != [] && d >= 0.0 && AtMostApart(e.updatedAt, times, d)
    ensures 30.0 * (e.confidence - DecayedBy(e, times).confidence) <= 0.1 * (d * (times[|times| - 1] - e.updatedAt))
  {
    var span := times[|times| - 1] - e.updatedAt;
    var limit := d * span;
    ScheduleDecays(e, times);
    SlowCharge(e.updatedAt, times, d, span, limit);
    LossBound(e.confidence, DecayedBy(e, times).confidence, DaysCharged(e.updatedAt, times), limit);
  }

  lemma LossBound(c: real, f: real, charged: real, limit: real)
    requires f == (if c <= 0.0 then c else if c - 0.1 * charged < 0.0 then 0.0 else c - 0.1 * charged)
    requires 0.0 <= 30.0 * charged <= limit
    ensures 30.0 * (c - f) <= 0.1 * limit
  {}

  lemma ScaledSpan(n: real, d: real, span: real, bound: real, limit: real)
    requires 0.0 <= d && 30.0 * n <= span && bound == n * d && limit == d * span
    ensures 30.0 * bound <= limit
  {
    assert d * (span - 30.0 * n) >= 0.0;
  }

  // ----- the path query's search -----

  ghost predicate RowOk(edges: set<(Uuid, Uuid)>, from: Uuid, maxHops: nat, row: Row) {
    var ids := Split(row.path, ',');
    && (forall p :: p in ids ==> IsUuid(p))
    && Join(ids, ',') == row.path
    && ids[0] == from && ids[|ids| - 1] == row.id
    && |ids| == row.depth + 1 && row.depth <= maxHops
    && IsSimple(ids)
    && forall k :: 0 < k < |ids| ==> (ids[k - 1], ids[k]) in edges
  }

  ghost function RowIds(edges: set<(Uuid, Uuid)>, from: Uuid, maxHops: nat, row: Row): (ids: seq<Uuid>)
    requires RowOk(edges, from, maxHops, row)
    ensures ids == Split(row.path, ',') && Join(ids, ',') == row.path
  {
    Split(row.path, ',')
  }

  /** The row for one more edge, as the recursive SELECT builds it. */
  function NextRow(row: Row, to: Uuid): Row {
    Row(to, row.path + "," + to, row.depth + 1)
  }

  lemma NextRowOk(edges: set<(Uuid, Uuid)>, from: Uuid, maxHops: nat, row: Row, to: Uuid)
    requires RowOk(edges, from, maxHops, row) && (row.id, to) in edges && row.depth < maxHops
    requires !Like(row.path, "%" + to + "%")
    ensures RowOk(edges, from, maxHops, NextRow(row, to))
    ensures Split(NextRow(row, to).path, ',') == Split(row.path, ',') + [to]
  {
    var ids := RowIds(edges, from, maxHops, row);
    LikeIsMembership(ids, to);
    PathRoundTrip(ids, to);
    PathRoundTrip(ids + [to], to);
    var next := ids + [to];
    forall k | 0 < k < |next| ensures (next[k - 1], next[k]) in edges {
      if k < |ids| { assert (ids[k - 1], ids[k]) in edges; }
    }
  }

  ghost predicate HasRow(rows: seq<Row>, ids: seq<Uuid>) {
    exists i :: 0 <= i < |rows| && Split(rows[i].path, ',') == ids
  }

  lemma HasRowSnoc(rows: seq<Row>, row: Row)
    ensures forall ids :: HasRow(rows, ids) ==> HasRow(rows + [row], ids)
    ensures forall ids: seq<Uuid> :: ids == Split(row.path, ',') ==> HasRow(rows + [row], ids)
  {
    forall ids | HasRow(rows, ids) ensures HasRow(rows + [row], ids) {
      var i :| 0 <= i < |rows| && Split(rows[i].path, ',') == ids;
      assert (rows + [row])[i] == rows[i];
    }
    assert (rows + [row])[|rows|] == row;
  }

  lemma HasRowRemove(rows: seq<Row>, i: nat, more: seq<Row>, ids: seq<Uuid>)
    requires i < |rows| && HasRow(rows, ids) && Split(rows[i].path, ',') != ids
    ensures HasRow(rows[..i] + rows[i + 1..] + more, ids)
  {
    var k :| 0 <= k < |rows| && Split(rows[k].path, ',') == ids;
    assert (rows[..i] + rows[i + 1..] + more)[if k < i then k else k - 1] == rows[k];
  }

  lemma HasRowAppend(rows: seq<Row>, more: seq<Row>, ids: seq<Uuid>)
    requires HasRow(more, ids)
    ensures HasRow(rows + more, ids)
  {
    var k :| 0 <= k < |more| && Split(more[k].path, ',') == ids;
    assert (rows + more)[|rows| + k] == more[k];
  }

  ghost predicate AllRowsOk(edges: set<(Uuid, Uuid)>, from: Uuid, maxHops: nat, rows: seq<Row>) {
    forall i :: 0 <= i < |rows| ==> RowOk(edges, from, maxHops, rows[i])
  }

  /** The join condition and WHERE clause of the recursive SELECT. */
  predicate Fits(row: Row, maxHops: nat, rel: Relation) {
    && rel.fromEntity == row.id
    && row.depth < maxHops
    && !Like(row.path, "%" + rel.toEntity + "%")
  }

  ghost predicate Extended(rows: seq<Row>, at: Uuid, ids: seq<Uuid>, rel: Relation) {
    rel.fromEntity == at && rel.toEntity !in ids ==> HasRow(rows, ids + [rel.toEntity])
  }

  lemma ExtensionOk(edges: set<(Uuid, Uuid)>, from: Uuid, maxHops: nat, row: Row, rel: Relation, rows: seq<Row>)
    requires RowOk(edges, from, maxHops, row) && (rel.fromEntity, rel.toEntity) in edges
    requires AllRowsOk(edges, from, maxHops, rows)
    ensures var ids, more := RowIds(edges, from, maxHops, row), rows + [NextRow(row, rel.toEntity)];
      && (Fits(row, maxHops, rel) ==>
            && AllRowsOk(edges, from, maxHops, more)
            && (forall r :: Extended(rows, row.id, ids, r) ==> Extended(more, row.id, ids, r))
            && Extended(more, row.id, ids, rel))
      && (!Fits(row, maxHops, rel) && row.depth < maxHops ==> Extended(rows, row.id, ids, rel))
  {
    var ids := RowIds(edges, from, maxHops, row);
    LikeIsMembership(ids, rel.toEntity);
    if Fits(row, maxHops, rel) {
      NextRowOk(edges, from, maxHops, row, rel.toEntity);
      HasRowSnoc(rows, NextRow(row, rel.toEntity));
    }
  }

  lemma FirstRowOk(edges: set<(Uuid, Uuid)>, from: Uuid, maxHops: nat)
    ensures RowOk(edges, from, maxHops, Row(from, from, 0)) && Split(from, ',') == [from]
  {
    var one: seq<Uuid> := [from];
    PathRoundTrip(one, from);
    assert Join(one, ',') == from;
  }

  lemma RowConnects(edges: set<(Uuid, Uuid)>, from: Uuid, maxHops: nat, row: Row)
    requires RowOk(edges, from, maxHops, row)
    ensures Connects(edges, RowIds(edges, from, maxHops, row), from, row.id, maxHops)
    ensures Reaches(edges, from, row.id, maxHops)
  {
    var ids := RowIds(edges, from, maxHops, row);
    assert Connects(edges, ids, from, row.id, maxHops);
  }

  lemma RowAtPrefix(edges: set<(Uuid, Uuid)>, from: Uuid, maxHops: nat, row: Row, goal: seq<Uuid>, known: nat)
    requires RowOk(edges, from, maxHops, row) && 1 <= known <= |goal|
    ensures Split(row.path, ',') == goal[..known] ==> row.id == goal[known - 1] && row.depth == known - 1
  {}

  lemma QueueStep(edges: set<(Uuid, Uuid)>, from: Uuid, maxHops: nat, width: nat, queue: seq<Row>, i: nat, children: seq<Row>)
    requires i < |queue| && AllRowsOk(edges, from, maxHops, queue) && AllRowsOk(edges, from, maxHops, children)
    requires |children| < width && queue[i].depth <= maxHops
    requires if queue[i].depth < maxHops then forall c :: c in children ==> c.depth == queue[i].depth + 1 else children == []
    ensures var next := queue[..i] + queue[i + 1..] + children;
      && AllRowsOk(edges, from, maxHops, next)
      && TotalWeight(width, maxHops, next) < TotalWeight(width, maxHops, queue)
  {
    var rest := queue[..i] + queue[i + 1..];
    TotalWeightRemove(width, maxHops, queue, i);
    ExpansionLowersWeight(width, maxHops, queue[i], children);
    TotalWeightConcat(width, maxHops, rest, children);
    forall k | 0 <= k < |rest + children| ensures RowOk(edges, from, maxHops, (rest + children)[k]) {
      if k < |rest| {
        assert rest[k] == queue[if k < i then k else k + 1];
      } else {
        assert (rest + children)[k] == children[k - |rest|];
      }
    }
  }

  /** What the recursive SELECT yields for one row. */
  ghost predicate ChildrenOf(edges: set<(Uuid, Uuid)>, from: Uuid, maxHops: nat, row: Row, children: seq<Row>)
    requires RowOk(edges, from, maxHops, row)
  {
    && AllRowsOk(edges, from, maxHops, children)
    && (forall c :: c in children ==> c.depth == row.depth + 1)
    && (row.depth == maxHops ==> children == [])
    && (row.depth < maxHops ==>
          forall x: Uuid :: (row.id, x) in edges && x !in RowIds(edges, from, maxHops, row) ==>
            HasRow(children, RowIds(edges, from, maxHops, row) + [x]))
  }

  /** Taking one row off the queue and adding its children never loses the goal:
      some row still holds a prefix of it. */
  lemma GoalStaysKnown(edges: set<(Uuid, Uuid)>, from: Uuid, to: Uuid, maxHops: nat, goal: seq<Uuid>, known: nat,
                       queue: seq<Row>, i: nat, children: seq<Row>) returns (now: nat)
    requires Connects(edges, goal, from, to, maxHops) && IsSimple(goal)
    requires 1 <= known <= |goal| && HasRow(queue, goal[..known])
    requires i < |queue| && RowOk(edges, from, maxHops, queue[i]) && queue[i].id != to
    requires ChildrenOf(edges, from, maxHops, queue[i], children)
    ensures 1 <= now <= |goal| && HasRow(queue[..i] + queue[i + 1..] + children, goal[..now])
  {
    if Split(queue[i].path, ',') == goal[..known] {
      RowAtPrefix(edges, from, maxHops, queue[i], goal, known);
      now := NextPrefixKnown(edges, from, to, maxHops, goal, known, queue[i], children);
      HasRowAppend(queue[..i] + queue[i + 1..], children, goal[..now]);
    } else {
      now := known;
      HasRowRemove(queue, i, children, goal[..known]);
    }
  }

  lemma NextPrefixKnown(edges: set<(Uuid, Uuid)>, from: Uuid, to: Uuid, maxHops: nat, goal: seq<Uuid>, known: nat,
                        row: Row, children: seq<Row>) returns (now: nat)
    requires Connects(edges, goal, from, to, maxHops) && IsSimple(goal) && 1 <= known <= |goal|
    requires RowOk(edges, from, maxHops, row) && row.id != to && RowIds(edges, from, maxHops, row) == goal[..known]
    requires row.id == goal[known - 1] && row.depth == known - 1
    requires ChildrenOf(edges, from, maxHops, row, children)
    ensures now == known + 1 <= |goal| && HasRow(children, goal[..now])
  {
    assert known < |goal|;
    assert (goal[known - 1], goal[known]) in edges;
    assert goal[known] !in goal[..known];
    now := known + 1;
    assert goal[..now] == goal[..known] + [goal[known]];
  }

  ghost predicate SearchInv(edges: set<(Uuid, Uuid)>, from: Uuid, maxHops: nat, goal: seq<Uuid>, known: nat, queue: seq<Row>) {
    && AllRowsOk(edges, from, maxHops, queue)
    && (goal != [] ==> 1 <= known <= |goal| && HasRow(queue, goal[..known]))
  }

  lemma QueuedRowOk(edges: set<(Uuid, Uuid)>, from: Uuid, maxHops: nat, goal: seq<Uuid>, known: nat, queue: seq<Row>, i: nat)
    requires SearchInv(edges, from, maxHops, goal, known, queue) && i < |queue|
    ensures RowOk(edges, from, maxHops, queue[i])
  {}

  lemma SearchStart(edges: set<(Uuid, Uuid)>, from: Uuid, to: Uuid, maxHops: nat) returns (goal: seq<Uuid>)
    ensures goal == [] ==> !Reaches(edges, from, to, maxHops)
    ensures goal != [] ==> Connects(edges, goal, from, to, maxHops) && IsSimple(goal)
    ensures SearchInv(edges, from, maxHops, goal, 1, [Row(from, from, 0)])
  {
    goal := [];
    if Reaches(edges, from, to, maxHops) {
      var w :| Connects(edges, w, from, to, maxHops);
      goal := SimplePathFromWalk(edges, w, from, to, maxHops);
      assert goal[..1] == [from];
    }
    FirstRowOk(edges, from, maxHops);
    assert [Row(from, from, 0)][0] == Row(from, from, 0);
  }

  lemma SearchStep(edges: set<(Uuid, Uuid)>, from: Uuid, to: Uuid, maxHops: nat, width: nat,
                   goal: seq<Uuid>, known: nat, queue: seq<Row>, i: nat, children: seq<Row>) returns (now: nat)
    requires SearchInv(edges, from, maxHops, goal, known, queue) && i < |queue| && queue[i].id != to
    requires goal != [] ==> Connects(edges, goal, from, to, maxHops) && IsSimple(goal)
    requires ChildrenOf(edges, from, maxHops, queue[i], children) && |children| < width
    ensures var next := queue[..i] + queue[i + 1..] + children;
      SearchInv(edges, from, maxHops, goal, now, next)
      && TotalWeight(width, maxHops, next) < TotalWeight(width, maxHops, queue)
  {
    now := known;
    assert RowOk(edges, from, maxHops, queue[i]);
    QueueStep(edges, from, maxHops, width, queue, i, children);
    if goal != [] {
      now := GoalStaysKnown(edges, from, to, maxHops, goal, known, queue, i, children);
    }
  }

  function Pow(base: nat, exp: nat): nat {
    if exp == 0 then 1 else base * Pow(base, exp - 1)
  }

  /** Work a row can still cause: one more than the relation count to the power
      of the hops it has left. */
  function Weight(width: nat, maxHops: nat, row: Row): nat {
    if row.depth <= maxHops then Pow(width, maxHops - row.depth) else 0
  }

  function TotalWeight(width: nat, maxHops: nat, rows: seq<Row>): nat {
    if rows == [] then 0 else Weight(width, maxHops, rows[0]) + TotalWeight(width, maxHops, rows[1..])
  }

  lemma {:induction false} TotalWeightConcat(width: nat, maxHops: nat, a: seq<Row>, b: seq<Row>)
    ensures TotalWeight(width, maxHops, a + b) == TotalWeight(width, maxHops, a) + TotalWeight(width, maxHops, b)
  {
    if a == [] {
      assert a + b == b;
    } else {
      assert (a + b)[1..] == a[1..] + b;
      TotalWeightConcat(width, maxHops, a[1..], b);
    }
  }

  lemma TotalWeightRemove(width: nat, maxHops: nat, rows: seq<Row>, i: nat)
    requires i < |rows|
    ensures TotalWeight(width, maxHops, rows[..i] + rows[i + 1..]) + Weight(width, maxHops, rows[i])
            == TotalWeight(width, maxHops, rows)
  {
    assert rows == rows[..i] + ([rows[i]] + rows[i + 1..]);
    TotalWeightConcat(width, maxHops, rows[..i], [rows[i]] + rows[i + 1..]);
    TotalWeightConcat(width, maxHops, [rows[i]], rows[i + 1..]);
    TotalWeightConcat(width, maxHops, rows[..i], rows[i + 1..]);
    assert [rows[i]][1..] == [];
  }

  lemma {:induction false} PowPositive(base: nat, exp: nat)
    requires base > 0
    ensures Pow(base, exp) > 0
  {
    if exp > 0 { PowPositive(base, exp - 1); }
  }

  lemma {:induction false} ChildrenWeigh(width: nat, maxHops: nat, rows: seq<Row>, depth: nat)
    requires depth <= maxHops && forall r :: r in rows ==> r.depth == depth
    ensures TotalWeight(width, maxHops, rows) == |rows| * Pow(width, maxHops - depth)
  {
    if rows != [] { ChildrenWeigh(width, maxHops, rows[1..], depth); }
  }

  lemma MultiplyLess(a: nat, b: nat, p: nat)
    requires a < b && p > 0
    ensures a * p < b * p
  {}

  /** Replacing a row by at most width - 1 rows one level deeper lowers the total. */
  lemma ExpansionLowersWeight(width: nat, maxHops: nat, row: Row, children: seq<Row>)
    requires row.depth <= maxHops && |children| < width
    requires if row.depth < maxHops then forall c :: c in children ==> c.depth == row.depth + 1 else children == []
    ensures TotalWeight(width, maxHops, children) < Weight(width, maxHops, row)
  {
    if row.depth < maxHops {
      var p := Pow(width, maxHops - row.depth - 1);
      ChildrenWeigh(width, maxHops, children, row.depth + 1);
      PowPositive(width, maxHops - row.depth - 1);
      MultiplyLess(|children|, width, p);
      assert Pow(width, maxHops - row.depth) == width * p;
    }
  }

  function Ids(path: seq<Entity>): seq<Uuid> {
    seq(|path|, i requires 0 <= i < |path| => path[i].id)
  }

  function SumConfidence(path: seq<Entity>): real {
    if path == [] then 0.0 else SumConfidence(path[..|path| - 1]) + path[|path| - 1].confidence
  }

  /** The sum counts every entity of the path once. */
  lemma {:induction false} SumConfidenceAddsUp(a: seq<Entity>, b: seq<Entity>)
    ensures SumConfidence(a + b) == SumConfidence(a) + SumConfidence(b)
    ensures |b| == 1 ==> SumConfidence(b) == b[0].confidence
  {
    if b == [] {
      assert a + b == a;
    } else {
      assert (a + b)[..|a + b| - 1] == a + b[..|b| - 1];
      SumConfidenceAddsUp(a, b[..|b| - 1]);
    }
  }

  /** n numbers, each in [low, high], can add up to the sum. */
  predicate SumWithin(n: nat, sum: real, low: real, high: real) {
    n as real * low <= sum <= n as real * high
  }

  lemma SumGrows(n: nat, sum: real, x: real, low: real, high: real)
    requires SumWithin(n, sum, low, high) && low <= x <= high
    ensures SumWithin(n + 1, sum + x, low, high)
  {
    assert (n + 1) as real == n as real + 1.0;
  }

  lemma {:induction false} ConfidencesWithin(path: seq<Entity>, low: real, high: real)
    requires forall k :: 0 <= k < |path| ==> low <= path[k].confidence <= high
    ensures SumWithin(|path|, SumConfidence(path), low, high)
  {
    if path != [] {
      var n := |path| - 1;
      ConfidencesWithin(path[..n], low, high);
      SumGrows(n, SumConfidence(path[..n]), path[n].confidence, low, high);
    }
  }

  lemma Fewer(n: real, x: real, y: real)
    requires n > 0.0 && x < y
    ensures n * x < n * y
  {}

  lemma MeanWithin(sum: real, n: nat, low: real, high: real)
    requires n > 0 && SumWithin(n, sum, low, high)
    ensures low <= sum / n as real <= high
  {
    var mean := sum / n as real;
    assert mean * n as real == sum;
    if mean < low { Fewer(n as real, mean, low); }
    if high < mean { Fewer(n as real, high, mean); }
  }

  /** Whatever the confidences on the path lie between, the answer's lies between too. */
  ghost predicate MeanOf(path: seq<Entity>, confidence: real) {
    forall low: real, high: real :: EachWithin(path, low, high) ==> Between(low, confidence, high)
  }

  predicate EachWithin(path: seq<Entity>, low: real, high: real) {
    forall k :: 0 <= k < |path| ==> low <= path[k].confidence <= high
  }

  predicate Between(low: real, x: real, high: real) {
    low <= x <= high
  }

  lemma MeanConfidence(path: seq<Entity>)
    requires path != []
    ensures MeanOf(path, SumConfidence(path) / |path| as real)
  {
    forall low: real, high: real | EachWithin(path, low, high)
      ensures Between(low, SumConfidence(path) / |path| as real, high)
    {
      ConfidencesWithin(path, low, high);
      MeanWithin(SumConfidence(path), |path|, low, high);
    }
  }

  /** Rows sit under their IDs; (name, type) is unique. */
  ghost predicate EntitiesOk(entities: map<Uuid, Entity>) {
    && (forall id :: id in entities ==> entities[id].id == id)
    && (forall i, j :: i in entities && j in entities && i != j ==>
          entities[i].name != entities[j].name || entities[i].kind != entities[j].kind)
  }

  /** Rows sit under their IDs and only join entities that exist; (from, to, type)
      is unique. */
  ghost predicate RelationsOk(entities: map<Uuid, Entity>, relations: map<Uuid, Relation>) {
    && (forall id :: id in relations ==>
          relations[id].id == id && relations[id].fromEntity in entities && relations[id].toEntity in entities)
    && (forall i, j :: i in relations && j in relations && i != j ==> !SameEdge(relations[i], relations[j]))
  }

  predicate SameEdge(r: Relation, t: Relation) {
    r.fromEntity == t.fromEntity && r.toEntity == t.toEntity && r.relType == t.relType
  }

  lemma RelationRaised(entities: map<Uuid, Entity>, relations: map<Uuid, Relation>, r: Relation)
    requires RelationsOk(entities, relations) && r.id in relations && SameEdge(r, relations[r.id])
    ensures RelationsOk(entities, relations[r.id := r])
  {
    var after := relations[r.id := r];
    forall id | id in after ensures after[id].id == id && SameEdge(after[id], relations[id]) {}
    forall i, j | i in after && j in after && i != j ensures !SameEdge(after[i], after[j]) {
      assert !SameEdge(relations[i], relations[j]);
    }
  }

  lemma RelationAdded(entities: map<Uuid, Entity>, relations: map<Uuid, Relation>, r: Relation)
    requires RelationsOk(entities, relations) && r.id !in relations && r.fromEntity in entities && r.toEntity in entities
    requires forall id :: id in relations ==> !SameEdge(relations[id], r)
    ensures RelationsOk(entities, relations[r.id := r])
  {}

  class Store {
    var entities: map<Uuid, Entity>
    var relations: map<Uuid, Relation>

    ghost predicate Valid()
      reads this
    {
      EntitiesOk(entities) && RelationsOk(entities, relations)
    }

    /** All that looking a relation up relies on. */
    ghost predicate Keyed()
      reads this
    {
      forall id :: id in relations ==> relations[id].id == id
    }

    constructor ()
      ensures Valid() && entities == map[] && relations == map[]
    {
      entities, relations := map[], map[];
    }

    /** The row the entity lookup by name returns: some row of highest confidence. */
    ghost predicate BestMatch(name: string, e: Entity)
      reads this
    {
      && e.id in entities && entities[e.id] == e && e.name == name
      && forall id :: id in entities && entities[id].name == name ==> entities[id].confidence <= e.confidence
    }

    ghost predicate NameKnown(name: string)
      reads this
    {
      exists id :: id in entities && entities[id].name == name
    }

    method GetEntityByName(name: string) returns (r: Option<Entity>)
      requires Valid()
      ensures r.Some? <==> NameKnown(name)
      ensures r.Some? ==> BestMatch(name, r.value)
    {
      r := None;
      var todo := entities.Keys;
      while todo != {}
        invariant todo <= entities.Keys
        invariant r.None? ==> forall id :: id in entities && id !in todo ==> entities[id].name != name
        invariant r.Some? ==> r.value.id in entities && entities[r.value.id] == r.value && r.value.name == name
        invariant r.Some? ==> forall id :: id in entities && id !in todo && entities[id].name == name ==>
                                             entities[id].confidence <= r.value.confidence
        decreases todo
      {
        var id :| id in todo;
        todo := todo - {id};
        if entities[id].name == name && (r.None? || r.value.confidence < entities[id].confidence) {
          r := Some(entities[id]);
        }
      }
    }

    method UpsertEntity(input: EntityInput, confidence: real, source: string, newId: Uuid, now: real)
      returns (r: Result<Entity, StoreError>)
      requires Valid()
      modifies this
      ensures Valid() && relations == old(relations)
      ensures forall id :: id in old(entities) && old(entities)[id].name == input.name && old(entities)[id].kind == input.kind ==>
        var e := old(entities)[id];
        && r == Ok(e.(properties := e.properties + input.properties, updatedAt := now,
                      confidence := (e.confidence + confidence) / 2.0, source := source))
        && entities == old(entities)[id := r.value]
      ensures (forall id :: id in old(entities) ==> old(entities)[id].name != input.name || old(entities)[id].kind != input.kind) ==>
        if newId in old(entities) then r == Err(InsertFailed) && entities == old(entities)
        else r == Ok(Entity(newId, input.kind, input.name, input.properties, now, now, confidence, source))
             && entities == old(entities)[newId := r.value]
    {
      if id :| id in entities && entities[id].name == input.name && entities[id].kind == input.kind {
        var e := entities[id];
        var merged := MergeProperties(e.properties, input.properties);
        e := e.(properties := merged, updatedAt := now, confidence := (e.confidence + confidence) / 2.0, source := source);
        entities := entities[id := e];
        return Ok(e);
      }
      if newId in entities {
        return Err(InsertFailed);
      }
      var e := Entity(newId, input.kind, input.name, input.properties, now, now, confidence, source);
      entities := entities[newId := e];
      return Ok(e);
    }

    predicate Matches(r: Relation, from: Uuid, to: Uuid, relType: string) {
      r.fromEntity == from && r.toEntity == to && (relType != "" ==> r.relType == relType)
    }

    /** Any matching row; an empty relation type matches every type. */
    method FindRelation(from: Uuid, to: Uuid, relType: string) returns (r: Option<Relation>)
      requires Keyed()
      ensures r.Some? ==> r.value.id in relations && relations[r.value.id] == r.value && Matches(r.value, from, to, relType)
      ensures r.None? ==> forall id :: id in relations ==> !Matches(relations[id], from, to, relType)
    {
      if id :| id in relations && Matches(relations[id], from, to, relType) {
        r := Some(relations[id]);
      } else {
        r := None;
      }
    }

    ghost predicate RelationSaved(before: map<Uuid, Relation>, r: Relation, input: RelationInput,
                                  confidence: real, newId: Uuid, now: real)
      reads this
    {
      && relations == before[r.id := r]
      && if r.id in before then
           r == before[r.id].(confidence := (before[r.id].confidence + confidence) / 2.0)
         else
           r == Relation(newId, r.fromEntity, r.toEntity, input.relType, input.properties, confidence, now)
    }

    /** The second half of UpsertRelation, once both names are resolved. */
    method SaveRelation(from: Uuid, to: Uuid, input: RelationInput, confidence: real, newId: Uuid, now: real)
      returns (r: Result<Relation, StoreError>)
      requires Valid() && from in entities && to in entities
      modifies this`relations
      ensures Valid()
      ensures r.Ok? ==> Matches(r.value, from, to, input.relType)
                        && RelationSaved(old(relations), r.value, input, confidence, newId, now)
      ensures r.Err? ==> r == Err(InsertFailed) && relations == old(relations) && newId in relations
    {
      var existing := FindRelation(from, to, input.relType);
      if existing.Some? {
        var rel := existing.value;
        rel := rel.(confidence := (rel.confidence + confidence) / 2.0);
        RelationRaised(entities, relations, rel);
        relations := relations[rel.id := rel];
        return Ok(rel);
      }
      if newId in relations { return Err(InsertFailed); }
      var rel := Relation(newId, from, to, input.relType, input.properties, confidence, now);
      RelationAdded(entities, relations, rel);
      relations := relations[newId := rel];
      return Ok(rel);
    }

    method UpsertRelation(input: RelationInput, confidence: real, newId: Uuid, now: real)
      returns (r: Result<Relation, StoreError>)
      requires Valid()
      modifies this`relations
      ensures Valid()
      ensures r == Err(FromNotFound) <==> !NameKnown(input.from)
      ensures r == Err(ToNotFound) <==> NameKnown(input.from) && !NameKnown(input.to)
      ensures r == Err(InsertFailed) ==> newId in old(relations)
      ensures r.Err? ==> relations == old(relations)
      ensures r.Ok? ==> exists f, t :: BestMatch(input.from, f) && BestMatch(input.to, t)
                                       && Matches(r.value, f.id, t.id, input.relType)
      ensures r.Ok? ==> RelationSaved(old(relations), r.value, input, confidence, newId, now)
    {
      var from := GetEntityByName(input.from);
      if from.None? { return Err(FromNotFound); }
      var to := GetEntityByName(input.to);
      if to.None? { return Err(ToNotFound); }
      r := SaveRelation(from.value.id, to.value.id, input, confidence, newId, now);
      assert BestMatch(input.from, from.value) && BestMatch(input.to, to.value);
    }

    method ApplyConfidenceDecay(now: real) returns (count: nat)
      requires Valid()
      modifies this
      ensures Valid() && relations == old(relations)
      ensures entities.Keys == old(entities).Keys
      ensures forall id :: id in entities ==> entities[id] == Decayed(old(entities)[id], now)
      ensures count == |StaleIds(old(entities), now)|
    {
      var rows := entities;
      entities := map id | id in rows :: Decayed(rows[id], now);
      count := |StaleIds(rows, now)|;
    }

    function Edges(): set<(Uuid, Uuid)>
      reads this
    {
      set id | id in relations :: (relations[id].fromEntity, relations[id].toEntity)
    }

    /** The recursive SELECT applied to one row: a child for every relation that
        leaves the row's entity, while hops remain, unless the target's ID is LIKE
        some part of the path. */
    method Expand(row: Row, from: Uuid, maxHops: nat) returns (children: seq<Row>)
      requires RowOk(Edges(), from, maxHops, row)
      ensures |children| <= |relations| && ChildrenOf(Edges(), from, maxHops, row, children)
    {
      children := [];
      ghost var edges := Edges();
      ghost var ids := RowIds(edges, from, maxHops, row);
      var todo := relations.Keys;
      while todo != {}
        invariant todo <= relations.Keys && |children| <= |relations| - |todo|
        invariant AllRowsOk(edges, from, maxHops, children)
        invariant forall c :: c in children ==> c.depth == row.depth + 1
        invariant row.depth == maxHops ==> children == []
        invariant row.depth < maxHops ==> forall id :: id in relations && id !in todo ==>
                                                         Extended(children, row.id, ids, relations[id])
        decreases todo
      {
        var id :| id in todo;
        todo := todo - {id};
        var rel := relations[id];
        var fits := Fits(row, maxHops, rel);
        ExtensionOk(edges, from, maxHops, row, rel, children);
        if fits {
          children := children + [NextRow(row, rel.toEntity)];
        }
      }
    }

    /** One turn of the recursion: a row leaves the queue, its children join it. */
    method Advance(from: Uuid, ghost to: Uuid, maxHops: nat, ghost goal: seq<Uuid>, ghost known: nat, queue: seq<Row>, i: nat)
      returns (next: seq<Row>, ghost now: nat)
      requires i < |queue| && queue[i].id != to
      requires SearchInv(Edges(), from, maxHops, goal, known, queue)
      requires goal != [] ==> Connects(Edges(), goal, from, to, maxHops) && IsSimple(goal)
      ensures SearchInv(Edges(), from, maxHops, goal, now, next)
      ensures TotalWeight(|relations| + 1, maxHops, next) < TotalWeight(|relations| + 1, maxHops, queue)
    {
      ghost var edges := Edges();
      QueuedRowOk(edges, from, maxHops, goal, known, queue, i);
      var children := Expand(queue[i], from, maxHops);
      now := SearchStep(edges, from, to, maxHops, |relations| + 1, goal, known, queue, i, children);
      next := queue[..i] + queue[i + 1..] + children;
    }

    /** The recursive query with LIMIT 1: rows leave the queue in any order, the
        first one at the target is the answer. */
    method SearchPath(from: Uuid, to: Uuid, maxHops: nat) returns (hit: Option<Row>)
      ensures hit.Some? <==> Reaches(Edges(), from, to, maxHops)
      ensures hit.Some? ==> RowOk(Edges(), from, maxHops, hit.value) && hit.value.id == to
    {
      ghost var goal := SearchStart(Edges(), from, to, maxHops);
      ghost var known: nat := 1;
      var queue := [Row(from, from, 0)];
      while queue != []
        invariant SearchInv(Edges(), from, maxHops, goal, known, queue)
        decreases TotalWeight(|relations| + 1, maxHops, queue)
      {
        var i: nat :| i < |queue|;
        if queue[i].id == to {
          RowConnects(Edges(), from, maxHops, queue[i]);
          return Some(queue[i]);
        }
        queue, known := Advance(from, to, maxHops, goal, known, queue, i);
      }
      hit := None;
    }

    method GetEntity(id: Uuid) returns (r: Option<Entity>)
      ensures r == if id in entities then Some(entities[id]) else None
    {
      r := if id in entities then Some(entities[id]) else None;
    }

    /** The entity rows of a path's IDs, skipping IDs without a row; along a walk
        from an existing entity none is skipped. */
    method LoadEntities(ids: seq<Uuid>) returns (path: seq<Entity>, total: real)
      requires forall id :: id in entities ==> entities[id].id == id
      requires forall k :: 0 <= k < |ids| ==> ids[k] in entities
      ensures Ids(path) == ids && total == SumConfidence(path)
      ensures forall k :: 0 <= k < |path| ==> entities[ids[k]] == path[k]
    {
      path, total := [], 0.0;
      for i := 0 to |ids|
        invariant |path| == i && total == SumConfidence(path)
        invariant forall k :: 0 <= k < i ==> path[k] == entities[ids[k]]
      {
        var e := GetEntity(ids[i]);
        if e.Some? {
          assert (path + [e.value])[..i] == path;
          path, total := path + [e.value], total + e.value.confidence;
        }
      }
    }

    ghost predicate RelationsAlong(ids: seq<Uuid>, rels: seq<Relation>)
      reads this
    {
      && |rels| == |ids| - 1
      && forall k :: 0 <= k < |rels| ==>
           rels[k].id in relations && relations[rels[k].id] == rels[k] && Matches(rels[k], ids[k], ids[k + 1], "")
    }

    method LoadRelations(ids: seq<Uuid>) returns (rels: seq<Relation>)
      requires Keyed() && IsWalk(Edges(), ids)
      ensures RelationsAlong(ids, rels)
    {
      rels := [];
      for i := 0 to |ids| - 1
        invariant |rels| == i
        invariant forall k :: 0 <= k < i ==>
          rels[k].id in relations && relations[rels[k].id] == rels[k] && Matches(rels[k], ids[k], ids[k + 1], "")
      {
        var rel := FindRelation(ids[i], ids[i + 1], "");
        assert (ids[i + 1 - 1], ids[i + 1]) in Edges();
        if rel.Some? {
          rels := rels + [rel.value];
        }
      }
    }

    ghost predicate PathAnswer(q: QueryResult, from: Uuid, to: Uuid, hops: nat)
      reads this
    {
      && q.entities == q.path
      && Connects(Edges(), Ids(q.path), from, to, hops) && IsSimple(Ids(q.path))
      && (forall k :: 0 <= k < |q.path| ==> q.path[k].id in entities && entities[q.path[k].id] == q.path[k])
      && RelationsAlong(Ids(q.path), q.relations)
      && q.confidence == SumConfidence(q.path) / |q.path| as real && MeanOf(q.path, q.confidence)
    }

    lemma WalkStaysInside(ids: seq<Uuid>, from: Uuid)
      requires Valid() && from in entities && IsWalk(Edges(), ids) && ids[0] == from
      ensures forall k :: 0 <= k < |ids| ==> ids[k] in entities
    {
      forall k | 0 <= k < |ids| ensures ids[k] in entities {
        if k > 0 { assert (ids[k - 1], ids[k]) in Edges(); }
      }
    }

    method LoadPath(row: Row, from: Uuid, hops: nat) returns (q: QueryResult)
      requires Valid() && from in entities && RowOk(Edges(), from, hops, row)
      ensures PathAnswer(q, from, row.id, hops)
    {
      ghost var walk := RowIds(Edges(), from, hops, row);
      RowConnects(Edges(), from, hops, row);
      WalkStaysInside(walk, from);
      var ids: seq<Uuid> := Split(row.path, ',');
      assert ids == walk;
      var path, total := LoadEntities(ids);
      var rels := LoadRelations(ids);
      var confidence := if |path| == 0 then 0.0 else total / |path| as real;
      MeanConfidence(path);
      q := QueryResult(path, rels, path, confidence);
    }

    /** FindPath answers with a path exactly when the two resolved entities are
        joined by a directed walk within the hop limit. The path is simple and
        whole: every entity row is there, and one relation per consecutive pair. */
    method FindPath(fromName: string, toName: string, maxHops: int)
      returns (r: Result<QueryResult, StoreError>, ghost from: Entity, ghost to: Entity)
      requires Valid()
      ensures r == Err(FromNotFound) <==> !NameKnown(fromName)
      ensures r == Err(ToNotFound) <==> NameKnown(fromName) && !NameKnown(toName)
      ensures r != Err(InsertFailed)
      ensures r.Ok? ==> BestMatch(fromName, from) && BestMatch(toName, to)
      ensures r.Ok? ==>
        var hops := if maxHops <= 0 then 5 else maxHops;
        if Reaches(Edges(), from.id, to.id, hops) then PathAnswer(r.value, from.id, to.id, hops)
        else r.value == QueryResult([from], [], [], 0.0)
    {
      var hops := if maxHops <= 0 then 5 else maxHops;
      from, to := *, *;
      var fromRow := GetEntityByName(fromName);
      if fromRow.None? { r := Err(FromNotFound); return; }
      var toRow := GetEntityByName(toName);
      if toRow.None? { r := Err(ToNotFound); return; }
      from, to := fromRow.value, toRow.value;
      var hit := SearchPath(fromRow.value.id, toRow.value.id, hops);
      if hit.None? {
        r := Ok(QueryResult([fromRow.value], [], [], 0.0));
        return;
      }
      var q := LoadPath(hit.value, fromRow.value.id, hops);
      r := Ok(q);
    }
  }
}
