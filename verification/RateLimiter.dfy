/** The sliding-window rate limiter: a pruned list of grant times per session
    that must decide as the full history would. Times and the window are
    integers (nanoseconds); the clock never runs backwards. */
module RateLimiter {
  type Session = string

  datatype Grant = Grant(session: Session, time: int)

  /** The times strictly after now - window. */
  function Prune(times: seq<int>, now: int, window: int): seq<int> {
    if times == [] then []
    else
      var t := times[|times| - 1];
      Prune(times[..|times| - 1], now, window) + if t > now - window then [t] else []
  }

  function Times(grants: seq<Grant>, s: Session): seq<int> {
    if grants == [] then []
    else
      var g := grants[|grants| - 1];
      Times(grants[..|grants| - 1], s) + if g.session == s then [g.time] else []
  }

  /** The decision the full history calls for. */
  predicate Due(grants: seq<Grant>, s: Session, now: int, window: int, max: int) {
    |Prune(Times(grants, s), now, window)| < max
  }

  lemma {:induction false} PruneConcat(a: seq<int>, b: seq<int>, now: int, window: int)
    ensures Prune(a + b, now, window) == Prune(a, now, window) + Prune(b, now, window)
  {
    if b == [] {
      assert a + b == a;
    } else {
      assert (a + b)[..|a + b| - 1] == a + b[..|b| - 1];
      PruneConcat(a, b[..|b| - 1], now, window);
    }
  }

  /** Pruning earlier loses nothing that a later pruning keeps. */
  lemma {:induction false} PruneTwice(times: seq<int>, early: int, late: int, window: int)
    requires early <= late
    ensures Prune(Prune(times, early, window), late, window) == Prune(times, late, window)
  {
    if times != [] {
      var n := |times| - 1;
      PruneTwice(times[..n], early, late, window);
      PruneConcat(Prune(times[..n], early, window), if times[n] > early - window then [times[n]] else [], late, window);
    }
  }

  /** The positions of the times in (low, high]. */
  function TimesIn(times: seq<int>, low: int, high: int): set<nat> {
    set k: nat | k < |times| && low < times[k] <= high
  }

  /** The positions of the session's grants in (low, high]. */
  function GrantsIn(grants: seq<Grant>, s: Session, low: int, high: int): set<nat> {
    set k: nat | k < |grants| && grants[k].session == s && low < grants[k].time <= high
  }

  lemma TimesInSnoc(times: seq<int>, t: int, low: int, high: int)
    ensures |TimesIn(times + [t], low, high)| == |TimesIn(times, low, high)| + if low < t <= high then 1 else 0
  {
    assert TimesIn(times + [t], low, high) == TimesIn(times, low, high) + if low < t <= high then {|times|} else {};
  }

  lemma GrantsInSnoc(grants: seq<Grant>, g: Grant, s: Session, low: int, high: int)
    ensures |GrantsIn(grants + [g], s, low, high)|
            == |GrantsIn(grants, s, low, high)| + if g.session == s && low < g.time <= high then 1 else 0
  {
    assert GrantsIn(grants + [g], s, low, high)
      == GrantsIn(grants, s, low, high) + if g.session == s && low < g.time <= high then {|grants|} else {};
  }

  /** What pruning keeps: of times up to now, exactly those in (now - window, now]. */
  lemma {:induction false} PruneKeepsExactly(times: seq<int>, now: int, window: int)
    requires forall k :: 0 <= k < |times| ==> times[k] <= now
    ensures |Prune(times, now, window)| == |TimesIn(times, now - window, now)|
    ensures forall t :: t in Prune(times, now, window) <==> t in times && now - window < t
  {
    if times != [] {
      var n := |times| - 1;
      PruneKeepsExactly(times[..n], now, window);
      TimesInSnoc(times[..n], times[n], now - window, now);
      assert times == times[..n] + [times[n]];
    }
  }

  method PruneLoop(requests: seq<int>, now: int, window: int) returns (valid: seq<int>)
    ensures valid == Prune(requests, now, window)
  {
    valid := [];
    var cutoff := now - window;
    for i := 0 to |requests|
      invariant valid == Prune(requests[..i], now, window)
    {
      assert requests[..i + 1][..i] == requests[..i];
      if requests[i] > cutoff {
        valid := valid + [requests[i]];
      }
    }
    assert requests[..|requests|] == requests;
  }

  lemma TimesSnoc(grants: seq<Grant>, g: Grant, s: Session)
    ensures Times(grants + [g], s) == if g.session == s then Times(grants, s) + [g.time] else Times(grants, s)
  {
    assert (grants + [g])[..|grants|] == grants;
  }

  /** Counting a session's times in an interval is counting its grants there. */
  lemma {:induction false} TimesCount(grants: seq<Grant>, s: Session, low: int, high: int)
    ensures |TimesIn(Times(grants, s), low, high)| == |GrantsIn(grants, s, low, high)|
  {
    if grants != [] {
      var n := |grants| - 1;
      var front, g := grants[..n], grants[n];
      TimesCount(front, s, low, high);
      assert grants == front + [g];
      TimesSnoc(front, g, s);
      GrantsInSnoc(front, g, s, low, high);
      TimesInSnoc(Times(front, s), g.time, low, high);
    } else {
      assert TimesIn([], low, high) == {} && GrantsIn([], s, low, high) == {};
    }
  }

  lemma {:induction false} TimesWithin(grants: seq<Grant>, s: Session, now: int)
    requires forall k :: 0 <= k < |grants| ==> grants[k].time <= now
    ensures forall k :: 0 <= k < |Times(grants, s)| ==> Times(grants, s)[k] <= now
  {
    if grants != [] { TimesWithin(grants[..|grants| - 1], s, now); }
  }

  /** The decision, counted on the grants themselves. */
  lemma DueCounts(grants: seq<Grant>, s: Session, now: int, window: int, max: int)
    requires forall k :: 0 <= k < |grants| ==> grants[k].time <= now
    ensures |Prune(Times(grants, s), now, window)| == |GrantsIn(grants, s, now - window, now)|
    ensures Due(grants, s, now, window, max) <==> |GrantsIn(grants, s, now - window, now)| < max
  {
    TimesWithin(grants, s, now);
    PruneKeepsExactly(Times(grants, s), now, window);
    TimesCount(grants, s, now - window, now);
  }

  // ----- runs -----

  datatype Call = Allow(session: Session, time: int) | Cleanup(time: int)

  /** The grants a run of calls makes, by the full history. */
  function Grants(calls: seq<Call>, window: int, max: int): seq<Grant> {
    if calls == [] then []
    else
      var before := Grants(calls[..|calls| - 1], window, max);
      match calls[|calls| - 1]
      case Cleanup(_) => before
      case Allow(s, t) => if Due(before, s, t, window, max) then before + [Grant(s, t)] else before
  }

  /** Only the calls of one session. */
  function CallsOf(calls: seq<Call>, s: Session): seq<Call> {
    if calls == [] then []
    else
      var c := calls[|calls| - 1];
      CallsOf(calls[..|calls| - 1], s) + if c.Allow? && c.session == s then [c] else []
  }

  /** Cleanup calls and other sessions' calls, wherever they are inserted, change
      none of a session's grants, hence no decision. */
  lemma {:induction false} OthersDoNotMatter(calls: seq<Call>, s: Session, window: int, max: int)
    ensures Times(Grants(calls, window, max), s) == Times(Grants(CallsOf(calls, s), window, max), s)
  {
    if calls != [] {
      var n := |calls| - 1;
      OthersDoNotMatter(calls[..n], s, window, max);
      var mine := CallsOf(calls[..n], s);
      if calls[n].Allow? && calls[n].session == s {
        assert CallsOf(calls, s)[..|mine|] == mine;
        var before, alone := Grants(calls[..n], window, max), Grants(mine, window, max);
        assert Due(before, s, calls[n].time, window, max) <==> Due(alone, s, calls[n].time, window, max);
        assert (before + [Grant(s, calls[n].time)])[..|before|] == before;
        assert (alone + [Grant(s, calls[n].time)])[..|alone|] == alone;
      } else {
        assert CallsOf(calls, s) == mine;
        if calls[n].Allow? {
          var before := Grants(calls[..n], window, max);
          assert (before + [Grant(calls[n].session, calls[n].time)])[..|before|] == before;
        }
      }
    }
  }

  /** How many of the times lie in (x - window, x]. */
  function InWindow(times: seq<int>, x: int, window: int): nat {
    if times == [] then 0
    else
      var t := times[|times| - 1];
      InWindow(times[..|times| - 1], x, window) + if x - window < t <= x then 1 else 0
  }

  lemma {:induction false} WindowWithinPruned(times: seq<int>, x: int, now: int, window: int)
    requires now <= x
    ensures InWindow(times, x, window) <= |Prune(times, now, window)|
  {
    if times != [] { WindowWithinPruned(times[..|times| - 1], x, now, window); }
  }

  lemma {:induction false} NoWindowHolds(calls: seq<Call>, s: Session, x: int, window: int, max: int)
    ensures InWindow(Times(Grants(calls, window, max), s), x, window) <= if max > 0 then max else 0
  {
    if calls != [] {
      var n := |calls| - 1;
      NoWindowHolds(calls[..n], s, x, window, max);
      if calls[n].Allow? && Due(Grants(calls[..n], window, max), calls[n].session, calls[n].time, window, max) {
        GrantFitsWindow(Grants(calls[..n], window, max), Grant(calls[n].session, calls[n].time), s, x, window, max);
      }
    }
  }

  lemma {:induction false} InWindowCounts(times: seq<int>, x: int, window: int)
    ensures InWindow(times, x, window) == |TimesIn(times, x - window, x)|
  {
    if times != [] {
      var n := |times| - 1;
      InWindowCounts(times[..n], x, window);
      TimesInSnoc(times[..n], times[n], x - window, x);
      assert times == times[..n] + [times[n]];
    }
  }

  /** Over any run no interval (x - window, x] holds more than maxRequests grants
      of one session. */
  lemma NoWindowOverflows(calls: seq<Call>, s: Session, x: int, window: int, max: int)
    ensures |GrantsIn(Grants(calls, window, max), s, x - window, x)| <= if max > 0 then max else 0
  {
    var grants := Grants(calls, window, max);
    NoWindowHolds(calls, s, x, window, max);
    InWindowCounts(Times(grants, s), x, window);
    TimesCount(grants, s, x - window, x);
  }

  lemma InWindowSnoc(times: seq<int>, t: int, x: int, window: int)
    ensures InWindow(times + [t], x, window) == InWindow(times, x, window) + if x - window < t <= x then 1 else 0
  {
    assert (times + [t])[..|times|] == times;
  }

  lemma GrantFitsWindow(before: seq<Grant>, g: Grant, s: Session, x: int, window: int, max: int)
    requires Due(before, g.session, g.time, window, max)
    requires InWindow(Times(before, s), x, window) <= if max > 0 then max else 0
    ensures InWindow(Times(before + [g], s), x, window) <= if max > 0 then max else 0
  {
    TimesSnoc(before, g, s);
    if g.session == s {
      InWindowSnoc(Times(before, s), g.time, x, window);
      if g.time <= x { WindowWithinPruned(Times(before, s), x, g.time, window); }
    }
  }

  // ----- the limiter itself -----

  lemma GrantsSnoc(calls: seq<Call>, c: Call, window: int, max: int)
    ensures var before := Grants(calls, window, max);
      Grants(calls + [c], window, max) ==
        if c.Allow? && Due(before, c.session, c.time, window, max) then before + [Grant(c.session, c.time)] else before
  {
    assert (calls + [c])[..|calls|] == calls;
  }

  function KeptIn(limits: map<Session, seq<int>>, s: Session): seq<int> {
    if s in limits then limits[s] else []
  }

  /** From `now` on, the kept times and the full history prune to the same lists. */
  ghost predicate Agree(limits: map<Session, seq<int>>, history: seq<Grant>, now: int, window: int) {
    forall s :: Prune(KeptIn(limits, s), now, window) == Prune(Times(history, s), now, window)
  }

  lemma AgreeLater(limits: map<Session, seq<int>>, history: seq<Grant>, clock: int, now: int, window: int)
    requires Agree(limits, history, clock, window) && clock <= now
    ensures Agree(limits, history, now, window)
  {
    forall s ensures Prune(KeptIn(limits, s), now, window) == Prune(Times(history, s), now, window) {
      PruneTwice(KeptIn(limits, s), clock, now, window);
      PruneTwice(Times(history, s), clock, now, window);
    }
  }

  lemma AgreePruned(limits: map<Session, seq<int>>, history: seq<Grant>, s: Session, now: int, window: int)
    requires Agree(limits, history, now, window)
    ensures Agree(limits[s := Prune(KeptIn(limits, s), now, window)], history, now, window)
  {
    PruneTwice(KeptIn(limits, s), now, now, window);
  }

  lemma AgreeGranted(limits: map<Session, seq<int>>, history: seq<Grant>, s: Session, now: int, window: int)
    requires Agree(limits, history, now, window)
    ensures Agree(limits[s := Prune(KeptIn(limits, s), now, window) + [now]], history + [Grant(s, now)], now, window)
  {
    var kept := Prune(KeptIn(limits, s), now, window);
    AgreePruned(limits, history, s, now, window);
    var pruned, after := limits[s := kept], limits[s := kept + [now]];
    forall r ensures Prune(KeptIn(after, r), now, window) == Prune(Times(history + [Grant(s, now)], r), now, window) {
      assert Prune(KeptIn(pruned, r), now, window) == Prune(Times(history, r), now, window);
      GrantKeepsAgreement(history, Grant(s, now), r, kept, window);
    }
  }

  lemma GrantKeepsAgreement(was: seq<Grant>, g: Grant, r: Session, kept: seq<int>, window: int)
    ensures g.session != r ==> Times(was + [g], r) == Times(was, r)
    ensures Prune(kept, g.time, window) == Prune(Times(was, g.session), g.time, window) ==>
      Prune(kept + [g.time], g.time, window) == Prune(Times(was + [g], g.session), g.time, window)
  {
    TimesSnoc(was, g, r);
    TimesSnoc(was, g, g.session);
    PruneConcat(kept, [g.time], g.time, window);
    PruneConcat(Times(was, g.session), [g.time], g.time, window);
  }

  lemma PrunedAgrees(before: map<Session, seq<int>>, limits: map<Session, seq<int>>, history: seq<Grant>,
                     now: int, window: int)
    requires Agree(before, history, now, window) && limits.Keys <= before.Keys
    requires forall s :: s in before ==> (s in limits <==> Prune(before[s], now, window) != [])
    requires forall s :: s in limits ==> limits[s] == Prune(before[s], now, window)
    ensures Agree(limits, history, now, window)
    ensures forall s :: s in limits <==> Prune(Times(history, s), now, window) != []
    ensures forall s :: s in limits ==> limits[s] == Prune(Times(history, s), now, window)
  {
    forall s ensures Prune(KeptIn(limits, s), now, window) == Prune(Times(history, s), now, window)
                     && (s in limits <==> Prune(Times(history, s), now, window) != []) {
      assert Prune(KeptIn(before, s), now, window) == Prune(Times(history, s), now, window);
      PruneTwice(KeptIn(before, s), now, now, window);
    }
    forall s | s in limits ensures limits[s] == Prune(Times(history, s), now, window) {
      assert KeptIn(before, s) == before[s];
    }
  }

  lemma LiveSessions(limits: map<Session, seq<int>>, history: seq<Grant>, now: int, window: int)
    requires forall k :: 0 <= k < |history| ==> history[k].time <= now
    requires forall s :: s in limits <==> Prune(Times(history, s), now, window) != []
    requires forall s :: s in limits ==> limits[s] == Prune(Times(history, s), now, window)
    ensures forall s :: s in limits <==> GrantsIn(history, s, now - window, now) != {}
    ensures forall s :: s in limits ==> |limits[s]| == |GrantsIn(history, s, now - window, now)|
  {
    forall s ensures s in limits <==> GrantsIn(history, s, now - window, now) != {} {
      DueCounts(history, s, now, window, 0);
    }
    forall s | s in limits ensures |limits[s]| == |GrantsIn(history, s, now - window, now)| {
      DueCounts(history, s, now, window, 0);
    }
  }

  lemma CleanupFacts(before: map<Session, seq<int>>, limits: map<Session, seq<int>>, history: seq<Grant>,
                     now: int, window: int)
    requires Agree(before, history, now, window) && limits.Keys <= before.Keys
    requires forall k :: 0 <= k < |history| ==> history[k].time <= now
    requires forall s :: s in before ==> (s in limits <==> Prune(before[s], now, window) != [])
    requires forall s :: s in limits ==> limits[s] == Prune(before[s], now, window)
    ensures Agree(limits, history, now, window)
    ensures forall s :: s in limits <==> GrantsIn(history, s, now - window, now) != {}
    ensures forall s :: s in limits ==> |limits[s]| == |GrantsIn(history, s, now - window, now)|
  {
    PrunedAgrees(before, limits, history, now, window);
    LiveSessions(limits, history, now, window);
  }

  lemma AllowFacts(limits: map<Session, seq<int>>, history: seq<Grant>, s: Session, clock: int, now: int,
                   window: int, max: int)
    requires Agree(limits, history, clock, window) && clock <= now
    requires forall k :: 0 <= k < |history| ==> history[k].time <= clock
    ensures var valid := Prune(KeptIn(limits, s), now, window);
      && |valid| == |GrantsIn(history, s, now - window, now)|
      && (|valid| < max <==> Due(history, s, now, window, max))
      && Agree(limits[s := valid], history, now, window)
      && Agree(limits[s := valid + [now]], history + [Grant(s, now)], now, window)
    ensures forall k :: 0 <= k < |history + [Grant(s, now)]| ==> (history + [Grant(s, now)])[k].time <= now
  {
    DueCounts(history, s, now, window, max);
    AgreeLater(limits, history, clock, now, window);
    AgreePruned(limits, history, s, now, window);
    AgreeGranted(limits, history, s, now, window);
    assert Prune(KeptIn(limits, s), now, window) == Prune(Times(history, s), now, window);
  }

  class RateLimiter {
    var limits: map<Session, seq<int>>
    const window: int
    const maxRequests: int
    ghost var calls: seq<Call>   // every call so far
    ghost var clock: int         // the time of the latest call

    ghost function History(): seq<Grant>
      reads this
    {
      Grants(calls, window, maxRequests)
    }

    ghost predicate Valid()
      reads this
    {
      && Agree(limits, History(), clock, window)
      && forall k :: 0 <= k < |History()| ==> History()[k].time <= clock
    }

    constructor (window: int, maxRequests: int, ghost start: int)
      ensures Valid() && calls == [] && clock == start
      ensures this.window == window && this.maxRequests == maxRequests && limits == map[]
    {
      limits := map[];
      this.window, this.maxRequests := window, maxRequests;
      calls, clock := [], start;
    }

    /** Grants exactly when fewer than maxRequests of all the session's grants so
        far lie in (now - window, now]. */
    method Allow(s: Session, now: int) returns (ok: bool)
      requires Valid() && clock <= now
      modifies this
      ensures Valid() && clock == now && calls == old(calls) + [Call.Allow(s, now)]
      ensures ok <==> |GrantsIn(old(History()), s, now - window, now)| < maxRequests
      ensures History() == if ok then old(History()) + [Grant(s, now)] else old(History())
    {
      ghost var was := History();
      AllowFacts(limits, was, s, clock, now, window, maxRequests);
      var valid := PruneLoop(if s in limits then limits[s] else [], now, window);
      GrantsSnoc(calls, Call.Allow(s, now), window, maxRequests);
      calls, clock := calls + [Call.Allow(s, now)], now;
      if |valid| >= maxRequests {
        limits := limits[s := valid];
        return false;
      }
      limits := limits[s := valid + [now]];
      return true;
    }

    /** The loop over the sessions: each keeps its pruned list or, when that is
        empty, is deleted. */
    method PruneAll(now: int)
      modifies this`limits
      ensures limits.Keys <= old(limits).Keys
      ensures forall s :: s in old(limits) ==> (s in limits <==> Prune(old(limits)[s], now, window) != [])
      ensures forall s :: s in limits ==> limits[s] == Prune(old(limits)[s], now, window)
    {
      ghost var before := limits;
      var todo := limits.Keys;
      while todo != {}
        invariant todo <= limits.Keys <= before.Keys
        invariant forall s :: s in todo ==> limits[s] == before[s]
        invariant forall s :: s in before && s !in todo ==>
          (s in limits <==> Prune(before[s], now, window) != [])
        invariant forall s :: s in limits && s !in todo ==> limits[s] == Prune(before[s], now, window)
        decreases todo
      {
        var s :| s in todo;
        todo := todo - {s};
        var valid := PruneLoop(limits[s], now, window);
        if |valid| == 0 {
          limits := limits - {s};
        } else {
          limits := limits[s := valid];
        }
      }
    }

    /** Drops expired times, and sessions left without any: the sessions still
        tracked are exactly those with a grant inside the window. */
    method Cleanup(now: int)
      requires Valid() && clock <= now
      modifies this
      ensures Valid() && clock == now && calls == old(calls) + [Call.Cleanup(now)]
      ensures History() == old(History())
      ensures forall s :: s in limits <==> GrantsIn(History(), s, now - window, now) != {}
      ensures forall s :: s in limits ==> |limits[s]| == |GrantsIn(History(), s, now - window, now)|
    {
      ghost var was, before := History(), limits;
      AgreeLater(before, was, clock, now, window);
      PruneAll(now);
      CleanupFacts(before, limits, was, now, window);
      assert (calls + [Call.Cleanup(now)])[..|calls|] == calls;
      calls, clock := calls + [Call.Cleanup(now)], now;
    }

    method Len() returns (n: nat)
      ensures n == |limits|
    {
      n := |limits|;
    }
  }
}
