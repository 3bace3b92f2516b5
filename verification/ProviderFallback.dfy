/** EnhancedFallback: completion with error classification, a cooldown tracker of
    its own, and a log of every attempt, skipped ones included. */
module ProviderFallback {
  import opened Wrappers
  import opened Strings
  import opened ProviderRouter

  datatype Reason = NoReason | RateLimit | Timeout | ServerError | QuotaExceeded | InvalidRequest | RetriableError

  /** The first matching group of substrings decides. */
  function Classify(error: Option<string>): Reason {
    if error.None? then NoReason
    else
      var s := Lower(error.value);
      if Contains(s, "rate limit") || Contains(s, "429") then RateLimit
      else if Contains(s, "timeout") then Timeout
      else if Contains(s, "500") || Contains(s, "502") || Contains(s, "503") || Contains(s, "504") then ServerError
      else if Contains(s, "quota") || Contains(s, "429") || Contains(s, "insufficient") then QuotaExceeded
      else if Contains(s, "400") || Contains(s, "invalid") || Contains(s, "malformed") then InvalidRequest
      else RetriableError
  }

  predicate IsRetriable(reason: Reason) {
    reason.RateLimit? || reason.Timeout? || reason.ServerError? || reason.RetriableError?
  }

  /** The texts, in any case, that mark an error as transient. */
  predicate LooksTransient(e: string) {
    || Spells(e, "rate limit") || Spells(e, "429") || Spells(e, "timeout")
    || Spells(e, "500") || Spells(e, "502") || Spells(e, "503") || Spells(e, "504")
  }

  /** The active phase goes on after an error unless the text speaks of a quota or a
      bad request and of nothing transient. */
  lemma RetriableExactly(e: string)
    ensures !IsRetriable(Classify(Some(e))) <==>
      && !LooksTransient(e)
      && (Spells(e, "quota") || Spells(e, "insufficient") || Spells(e, "400") || Spells(e, "invalid") || Spells(e, "malformed"))
    ensures Classify(Some(e)) == RateLimit <==> Spells(e, "rate limit") || Spells(e, "429")
    ensures Classify(Some(e)) == QuotaExceeded <==>
      !LooksTransient(e) && (Spells(e, "quota") || Spells(e, "insufficient"))
    ensures Classify(Some(e)) == Timeout <==> Spells(e, "timeout") && !Spells(e, "rate limit") && !Spells(e, "429")
    ensures !IsRetriable(Classify(None))
  {
    LowerText(e, "rate limit");
    LowerText(e, "429");
    LowerText(e, "timeout");
    LowerText(e, "500");
    LowerText(e, "502");
    LowerText(e, "503");
    LowerText(e, "504");
    LowerText(e, "quota");
    LowerText(e, "insufficient");
    LowerText(e, "400");
    LowerText(e, "invalid");
    LowerText(e, "malformed");
  }

  lemma LowerText(e: string, part: string)
    requires forall k :: 0 <= k < |part| ==> !('A' <= part[k] <= 'Z')
    ensures Contains(Lower(e), part) <==> Spells(e, part)
  {
    assert Lower(part) == part;
    LowerContains(e, part);
  }

  /** The times strictly after now - 5 minutes. */
  function RecentOf(times: seq<int>, now: int): seq<int> {
    if times == [] then []
    else
      var t := times[|times| - 1];
      RecentOf(times[..|times| - 1], now) + if t > now - 5 * MINUTE then [t] else []
  }

  lemma {:induction false} AllRecent(times: seq<int>, now: int)
    requires forall i :: 0 <= i < |times| ==> times[i] > now - 5 * MINUTE
    ensures RecentOf(times, now) == times
  {
    if times != [] {
      AllRecent(times[..|times| - 1], now);
      assert times == times[..|times| - 1] + [times[|times| - 1]];
    }
  }

  method KeepRecent(times: seq<int>, now: int) returns (recent: seq<int>)
    ensures recent == RecentOf(times, now)
  {
    recent := [];
    for i := 0 to |times|
      invariant recent == RecentOf(times[..i], now)
    {
      assert times[..i + 1][..i] == times[..i];
      if times[i] > now - 5 * MINUTE {
        recent := recent + [times[i]];
      }
    }
    assert times[..|times|] == times;
  }

  function WindowOf(windows: map<string, seq<int>>, name: string): seq<int> {
    if name in windows then windows[name] else []
  }

  /** The windows once `name` has failed at `now`. */
  function Recorded(windows: map<string, seq<int>>, name: string, now: int): map<string, seq<int>> {
    windows[name := RecentOf(WindowOf(windows, name) + [now], now)]
  }

  /** More than five failures within five minutes start a two-minute cooldown. */
  function Cooled(windows: map<string, seq<int>>, cooldowns: map<string, int>, name: string, now: int): map<string, int> {
    if |WindowOf(windows, name)| > 5 then cooldowns[name := now + 2 * MINUTE] else cooldowns
  }

  class CooldownTracker {
    var cooldowns: map<string, int>
    var failCounts: map<string, nat>
    var windows: map<string, seq<int>>

    constructor ()
      ensures cooldowns == map[] && failCounts == map[] && windows == map[]
    {
      cooldowns, failCounts, windows := map[], map[], map[];
    }

    predicate IsInCooldown(name: string, now: int)
      reads this
    {
      name in cooldowns && now < cooldowns[name]
    }

    method RecordFailure(name: string, now: int)
      modifies this
      ensures windows == Recorded(old(windows), name, now)
      ensures failCounts == old(failCounts)[name := (if name in old(failCounts) then old(failCounts)[name] else 0) + 1]
      ensures cooldowns == Cooled(windows, old(cooldowns), name, now)
    {
      failCounts := failCounts[name := (if name in failCounts then failCounts[name] else 0) + 1];
      if name !in windows {
        windows := windows[name := []];
      }
      windows := windows[name := windows[name] + [now]];
      var recent := KeepRecent(windows[name], now);
      windows := windows[name := recent];
      if |recent| > 5 {
        cooldowns := cooldowns[name := now + 2 * MINUTE];
      }
    }

    method RecordSuccess(name: string)
      modifies this
      ensures cooldowns == old(cooldowns) - {name} && failCounts == old(failCounts)[name := 0] && windows == old(windows)
    {
      failCounts := failCounts[name := 0];
      cooldowns := cooldowns - {name};
    }
  }

  datatype FallbackAttempt = FallbackAttempt(provider: string, model: string, error: Option<string>, reason: Reason,
                                             duration: int, skipped: bool)

  predicate Succeeded(a: FallbackAttempt) {
    !a.skipped && a.error.None?
  }

  function RealCalls(attempts: seq<FallbackAttempt>): nat {
    if attempts == [] then 0
    else RealCalls(attempts[..|attempts| - 1]) + if attempts[|attempts| - 1].skipped then 0 else 1
  }

  /** The history events of the real calls; the k-th entry spans clock(k) to clock(k + 1). */
  function RealEvents(attempts: seq<FallbackAttempt>, clock: nat -> int): seq<Event> {
    if attempts == [] then []
    else
      var n := |attempts| - 1;
      RealEvents(attempts[..n], clock)
      + if attempts[n].skipped then [] else [Event(attempts[n].provider, attempts[n].error.None?, clock(n + 1))]
  }

  function ErrorOf(result: Result<Response, string>): Option<string> {
    match result
    case Ok(_) => None
    case Err(e) => Some(e)
  }

  function Skip(provider: string, model: string): FallbackAttempt {
    FallbackAttempt(provider, model, None, NoReason, 0, true)
  }

  /** The entry of a real call at position k. */
  function Called(provider: string, model: string, k: nat, outcome: nat -> Result<Response, string>, clock: nat -> int): FallbackAttempt {
    var e := ErrorOf(outcome(k));
    FallbackAttempt(provider, model, e, Classify(e), clock(k + 1) - clock(k), false)
  }

  /** Entry k is a skip or records the k-th outcome faithfully, and nothing follows
      a success. */
  predicate Faithful(attempts: seq<FallbackAttempt>, outcome: nat -> Result<Response, string>, clock: nat -> int) {
    && (forall k :: 0 <= k < |attempts| ==>
          || attempts[k] == Skip(attempts[k].provider, attempts[k].model)
          || attempts[k] == Called(attempts[k].provider, attempts[k].model, k, outcome, clock))
    && (forall k :: 0 <= k < |attempts| - 1 ==> !Succeeded(attempts[k]))
  }

  predicate EndsInSuccess(attempts: seq<FallbackAttempt>) {
    attempts != [] && Succeeded(attempts[|attempts| - 1])
  }

  predicate Fatal(a: FallbackAttempt) {
    !a.skipped && a.error.Some? && !IsRetriable(a.reason)
  }

  /** The active phase: entry k is for the k-th model, and nothing follows an error
      that is not worth retrying. */
  predicate ActivePhase(active: string, models: seq<string>, attempts: seq<FallbackAttempt>) {
    && |attempts| <= |models|
    && (forall k :: 0 <= k < |attempts| ==> attempts[k].provider == active && attempts[k].model == models[k])
    && (forall k :: 0 <= k < |attempts| - 1 ==> !Fatal(attempts[k]))
  }

  lemma EntrySnoc(attempts: seq<FallbackAttempt>, a: FallbackAttempt, clock: nat -> int)
    ensures RealCalls(attempts + [a]) == RealCalls(attempts) + if a.skipped then 0 else 1
    ensures RealEvents(attempts + [a], clock) == RealEvents(attempts, clock) +
      if a.skipped then [] else [Event(a.provider, a.error.None?, clock(|attempts| + 1))]
  {
    assert (attempts + [a])[..|attempts|] == attempts;
  }

  lemma FaithfulSnoc(attempts: seq<FallbackAttempt>, a: FallbackAttempt, outcome: nat -> Result<Response, string>, clock: nat -> int)
    requires Faithful(attempts, outcome, clock) && !EndsInSuccess(attempts)
    requires a == Skip(a.provider, a.model) || a == Called(a.provider, a.model, |attempts|, outcome, clock)
    ensures Faithful(attempts + [a], outcome, clock)
  {}

  /** Less than two minutes have passed by the time of entry k. */
  predicate ShortCall(clock: nat -> int, k: nat) {
    forall j: nat :: j <= k ==> clock(0) <= clock(j) < clock(0) + 2 * MINUTE
  }

  /** The bookkeeping behind a call, with the router and with the tracker. */
  method RecordCall(r: Router, t: CooldownTracker, name: string, ok: bool, duration: int, now: int)
    requires r.Valid() && name in r.stats
    modifies r`log, r.stats[name], t
    ensures r.Valid() && r.log == old(r.log) + [Event(name, ok, now)]
    ensures !ok ==> t.windows == Recorded(old(t.windows), name, now) && t.cooldowns == Cooled(t.windows, old(t.cooldowns), name, now)
    ensures ok ==> t.windows == old(t.windows) && t.cooldowns == old(t.cooldowns) - {name}
  {
    if ok {
      r.RecordSuccess(name, duration, now);
      t.RecordSuccess(name);
    } else {
      r.RecordFailure(name, now);
      t.RecordFailure(name, now);
    }
  }

  lemma EventOfCall(base: seq<Event>, attempts: seq<FallbackAttempt>, a: FallbackAttempt, clock: nat -> int)
    requires !a.skipped
    ensures base + RealEvents(attempts + [a], clock)
            == base + RealEvents(attempts, clock) + [Event(a.provider, a.error.None?, clock(|attempts| + 1))]
  {
    EntrySnoc(attempts, a, clock);
  }

  /** A real call: made, recorded with the router and the tracker, and logged. */
  method CallAndRecord(r: Router, t: CooldownTracker, name: string, provider: ProviderId, model: string,
                       attempts: seq<FallbackAttempt>, outcome: nat -> Result<Response, string>, clock: nat -> int,
                       ghost base: seq<Event>) returns (next: seq<FallbackAttempt>)
    requires r.Valid() && name in r.stats && r.log == base + RealEvents(attempts, clock)
    requires Faithful(attempts, outcome, clock) && !EndsInSuccess(attempts)
    modifies r`log, r.stats[name], t
    ensures r.Valid() && r.log == base + RealEvents(next, clock)
    ensures next == attempts + [Called(name, model, |attempts|, outcome, clock)] && Faithful(next, outcome, clock)
    ensures EndsInSuccess(next) <==> outcome(|attempts|).Ok?
    ensures outcome(|attempts|).Err? ==>
      var now := clock(|attempts| + 1);
      t.windows == Recorded(old(t.windows), name, now) && t.cooldowns == Cooled(t.windows, old(t.cooldowns), name, now)
  {
    var k := |attempts|;
    var a := Called(name, model, k, outcome, clock);
    EventOfCall(base, attempts, a, clock);
    FaithfulSnoc(attempts, a, outcome, clock);
    next := attempts + [a];
    RecordCall(r, t, name, outcome(k).Ok?, a.duration, clock(k + 1));
  }

  /** The tracker's view of a provider that has only failed since `start`: every
      failure is in the window, and the sixth has started a cooldown. */
  predicate AllFailed(window: seq<int>, cooldowns: map<string, int>, name: string, calls: nat, start: int) {
    && |window| == calls <= 6
    && (forall i :: 0 <= i < |window| ==> window[i] >= start)
    && (calls == 6 ==> name in cooldowns && cooldowns[name] >= start + 2 * MINUTE)
  }

  /** While the active provider keeps failing: nobody else is tracked, and as long
      as the call is short the tracker has seen every failure. */
  ghost predicate Tracked(windows: map<string, seq<int>>, cooldowns: map<string, int>, active: string,
                          calls: nat, clock: nat -> int, k: nat) {
    && windows.Keys <= {active} && cooldowns.Keys <= {active}
    && (ShortCall(clock, k) ==> AllFailed(WindowOf(windows, active), cooldowns, active, calls, clock(0)))
  }

  lemma FailureTracked(windows: map<string, seq<int>>, cooldowns: map<string, int>, active: string,
                       calls: nat, clock: nat -> int, k: nat)
    requires Tracked(windows, cooldowns, active, calls, clock, k) && (ShortCall(clock, k) ==> calls < 6)
    ensures var now := clock(k + 1); var after := Recorded(windows, active, now);
      Tracked(after, Cooled(after, cooldowns, active, now), active, calls + 1, clock, k + 1)
  {
    if ShortCall(clock, k + 1) {
      AllRecent(WindowOf(windows, active) + [clock(k + 1)], clock(k + 1));
    }
  }

  // ----- when the active provider is skipped -----

  /** When the real calls ended, in order. */
  function CallTimes(attempts: seq<FallbackAttempt>, clock: nat -> int): seq<int> {
    if attempts == [] then []
    else
      var n := |attempts| - 1;
      CallTimes(attempts[..n], clock) + if attempts[n].skipped then [] else [clock(n + 1)]
  }

  ghost predicate NeverBack(clock: nat -> int, k: nat) {
    forall i: nat, j: nat :: i <= j <= k ==> clock(i) <= clock(j)
  }

  /** The first n entries' real calls that ended in the five minutes up to `now`. */
  function RecentCalls(attempts: seq<FallbackAttempt>, clock: nat -> int, n: nat, now: int): set<nat>
    requires n <= |attempts|
  {
    set i: nat | i < n && !attempts[i].skipped && clock(i + 1) > now - 300_000_000_000
  }

  /** Entry j is a real call, at least the sixth to end within five minutes. */
  predicate Overheated(attempts: seq<FallbackAttempt>, clock: nat -> int, j: nat) {
    j < |attempts| && !attempts[j].skipped && |RecentCalls(attempts, clock, j + 1, clock(j + 1))| > 5
  }

  /** At entry k such a call ended less than two minutes ago. */
  ghost predicate CoolingDown(attempts: seq<FallbackAttempt>, clock: nat -> int, k: nat) {
    exists j: nat :: j < k && Overheated(attempts, clock, j) && clock(k) < clock(j + 1) + 120_000_000_000
  }

  lemma {:induction false} RecentOfConcat(a: seq<int>, b: seq<int>, now: int)
    ensures RecentOf(a + b, now) == RecentOf(a, now) + RecentOf(b, now)
  {
    if b == [] {
      assert a + b == a;
    } else {
      assert (a + b)[..|a + b| - 1] == a + b[..|b| - 1];
      RecentOfConcat(a, b[..|b| - 1], now);
    }
  }

  lemma RecentOfOne(t: int, now: int)
    ensures RecentOf([t], now) == if t > now - 5 * MINUTE then [t] else []
  {
    assert [t][..0] == [];
  }

  /** Forgetting early loses nothing that counts later. */
  lemma {:induction false} RecentAgain(times: seq<int>, before: int, now: int)
    requires before <= now
    ensures RecentOf(RecentOf(times, before), now) == RecentOf(times, now)
  {
    if times != [] {
      var n := |times| - 1;
      RecentAgain(times[..n], before, now);
      RecentOfOne(times[n], before);
      RecentOfOne(times[n], now);
      RecentOfConcat(RecentOf(times[..n], before), RecentOf([times[n]], before), now);
    }
  }

  lemma {:induction false} RecentCounted(attempts: seq<FallbackAttempt>, clock: nat -> int, now: int)
    ensures |RecentOf(CallTimes(attempts, clock), now)| == |RecentCalls(attempts, clock, |attempts|, now)|
  {
    if attempts != [] {
      var n := |attempts| - 1;
      RecentCounted(attempts[..n], clock, now);
      RecentOfOne(clock(n + 1), now);
      RecentOfConcat(CallTimes(attempts[..n], clock), [clock(n + 1)], now);
      assert attempts == attempts[..n] + [attempts[n]];
      RecentCallsSnoc(attempts[..n], attempts[n], clock, now);
      var front := CallTimes(attempts[..n], clock);
      assert CallTimes(attempts, clock) == if attempts[n].skipped then front else front + [clock(n + 1)];
    }
  }

  lemma RecentCallsSnoc(attempts: seq<FallbackAttempt>, a: FallbackAttempt, clock: nat -> int, now: int)
    ensures |RecentCalls(attempts + [a], clock, |attempts| + 1, now)| == |RecentCalls(attempts, clock, |attempts|, now)| +
      if !a.skipped && clock(|attempts| + 1) > now - 300_000_000_000 then 1 else 0
  {
    var before := RecentCalls(attempts, clock, |attempts|, now);
    assert |attempts| !in before;
    assert RecentCalls(attempts + [a], clock, |attempts| + 1, now) == before +
      if !a.skipped && clock(|attempts| + 1) > now - 300_000_000_000 then {|attempts|} else {};
  }

  lemma OverheatedStays(attempts: seq<FallbackAttempt>, a: FallbackAttempt, clock: nat -> int, j: nat)
    requires j < |attempts|
    ensures Overheated(attempts + [a], clock, j) <==> Overheated(attempts, clock, j)
  {
    assert RecentCalls(attempts + [a], clock, j + 1, clock(j + 1)) == RecentCalls(attempts, clock, j + 1, clock(j + 1));
  }

  lemma CoolingStays(attempts: seq<FallbackAttempt>, a: FallbackAttempt, clock: nat -> int, k: nat)
    requires k <= |attempts|
    ensures CoolingDown(attempts + [a], clock, k) <==> CoolingDown(attempts, clock, k)
  {
    forall j: nat | j < k ensures Overheated(attempts + [a], clock, j) <==> Overheated(attempts, clock, j) {
      OverheatedStays(attempts, a, clock, j);
    }
  }

  /** The window after the last real call. */
  function Windowed(times: seq<int>): seq<int> {
    if times == [] then [] else RecentOf(times, times[|times| - 1])
  }

  /** The cooldown runs two minutes from the latest such call. */
  ghost predicate CooledFor(cooldowns: map<string, int>, active: string, attempts: seq<FallbackAttempt>, clock: nat -> int) {
    && (active in cooldowns ==> exists j: nat :: Overheated(attempts, clock, j) && cooldowns[active] == clock(j + 1) + 2 * MINUTE)
    && (forall j: nat :: Overheated(attempts, clock, j) ==> active in cooldowns && clock(j + 1) + 2 * MINUTE <= cooldowns[active])
  }

  /** While all calls under the active name fail the tracker knows them all. */
  ghost predicate Watched(windows: map<string, seq<int>>, cooldowns: map<string, int>, active: string,
                          attempts: seq<FallbackAttempt>, clock: nat -> int) {
    && Tracked(windows, cooldowns, active, RealCalls(attempts), clock, |attempts|)
    && (NeverBack(clock, |attempts|) ==>
          WindowOf(windows, active) == Windowed(CallTimes(attempts, clock)) && CooledFor(cooldowns, active, attempts, clock))
  }

  lemma {:induction false} CallTimesPast(attempts: seq<FallbackAttempt>, clock: nat -> int, k: nat)
    requires |attempts| <= k && NeverBack(clock, k)
    ensures forall i :: 0 <= i < |CallTimes(attempts, clock)| ==> CallTimes(attempts, clock)[i] <= clock(k)
  {
    if attempts != [] { CallTimesPast(attempts[..|attempts| - 1], clock, k); }
  }

  lemma WindowGrows(times: seq<int>, now: int)
    requires forall i :: 0 <= i < |times| ==> times[i] <= now
    ensures RecentOf(Windowed(times) + [now], now) == Windowed(times + [now])
  {
    RecentOfConcat(times, [now], now);
    RecentOfConcat(Windowed(times), [now], now);
    if times != [] { RecentAgain(times, times[|times| - 1], now); }
  }

  lemma {:induction false} CooldownGrows(cooldowns: map<string, int>, after: map<string, int>, active: string,
                      attempts: seq<FallbackAttempt>, a: FallbackAttempt, clock: nat -> int)
    requires CooledFor(cooldowns, active, attempts, clock) && NeverBack(clock, |attempts| + 1)
    requires after == if Overheated(attempts + [a], clock, |attempts|)
                      then cooldowns[active := clock(|attempts| + 1) + 2 * MINUTE] else cooldowns
    ensures CooledFor(after, active, attempts + [a], clock)
  {
    var k := |attempts|;
    forall j: nat | j < k ensures Overheated(attempts + [a], clock, j) <==> Overheated(attempts, clock, j) {
      OverheatedStays(attempts, a, clock, j);
    }
    if active in cooldowns && !Overheated(attempts + [a], clock, k) {
      var j: nat :| Overheated(attempts, clock, j) && cooldowns[active] == clock(j + 1) + 2 * MINUTE;
      assert Overheated(attempts + [a], clock, j);
    }
  }

  lemma {:induction false} WindowFollowed(window: seq<int>, attempts: seq<FallbackAttempt>, a: FallbackAttempt, clock: nat -> int, now: int)
    requires window == Windowed(CallTimes(attempts, clock)) && !a.skipped
    requires NeverBack(clock, |attempts| + 1) && now == clock(|attempts| + 1)
    ensures RecentOf(window + [now], now) == Windowed(CallTimes(attempts + [a], clock))
    ensures |RecentOf(window + [now], now)| > 5 <==> Overheated(attempts + [a], clock, |attempts|)
  {
    var times := CallTimes(attempts, clock);
    assert (attempts + [a])[..|attempts|] == attempts;
    assert CallTimes(attempts + [a], clock) == times + [now];
    CallTimesPast(attempts, clock, |attempts| + 1);
    WindowGrows(times, now);
    RecentCounted(attempts + [a], clock, now);
  }

  lemma {:induction false} CallFollowed(windows: map<string, seq<int>>, cooldowns: map<string, int>, active: string,
                     attempts: seq<FallbackAttempt>, a: FallbackAttempt, clock: nat -> int, now: int)
    requires WindowOf(windows, active) == Windowed(CallTimes(attempts, clock))
    requires CooledFor(cooldowns, active, attempts, clock)
    requires !a.skipped && NeverBack(clock, |attempts| + 1) && now == clock(|attempts| + 1)
    ensures var after := Recorded(windows, active, now);
      && WindowOf(after, active) == Windowed(CallTimes(attempts + [a], clock))
      && CooledFor(Cooled(after, cooldowns, active, now), active, attempts + [a], clock)
  {
    WindowFollowed(WindowOf(windows, active), attempts, a, clock, now);
    var after := Recorded(windows, active, now);
    assert WindowOf(after, active) == RecentOf(WindowOf(windows, active) + [now], now);
    CooldownGrows(cooldowns, Cooled(after, cooldowns, active, now), active, attempts, a, clock);
  }

  lemma {:induction false} SkipFollowed(windows: map<string, seq<int>>, cooldowns: map<string, int>, active: string,
                     attempts: seq<FallbackAttempt>, a: FallbackAttempt, clock: nat -> int)
    requires Watched(windows, cooldowns, active, attempts, clock) && a.skipped
    ensures Watched(windows, cooldowns, active, attempts + [a], clock)
  {
    EntrySnoc(attempts, a, clock);
    if NeverBack(clock, |attempts| + 1) {
      assert (attempts + [a])[..|attempts|] == attempts;
      assert CallTimes(attempts + [a], clock) == CallTimes(attempts, clock);
      CooldownGrows(cooldowns, cooldowns, active, attempts, a, clock);
    }
  }

  lemma CooldownMeans(windows: map<string, seq<int>>, cooldowns: map<string, int>, active: string,
                      attempts: seq<FallbackAttempt>, clock: nat -> int)
    requires Watched(windows, cooldowns, active, attempts, clock) && NeverBack(clock, |attempts|)
    ensures (active in cooldowns && clock(|attempts|) < cooldowns[active]) <==> CoolingDown(attempts, clock, |attempts|)
  {}

  /** Under a clock that never goes back an entry for the active provider is a skip
      exactly while it cools down. */
  ghost predicate SkipsExplained(attempts: seq<FallbackAttempt>, clock: nat -> int) {
    forall k: nat :: k < |attempts| && NeverBack(clock, k) ==> (attempts[k].skipped <==> CoolingDown(attempts, clock, k))
  }

  lemma SkipsSnoc(attempts: seq<FallbackAttempt>, a: FallbackAttempt, clock: nat -> int)
    requires SkipsExplained(attempts, clock)
    requires NeverBack(clock, |attempts|) ==> (a.skipped <==> CoolingDown(attempts, clock, |attempts|))
    ensures SkipsExplained(attempts + [a], clock)
  {
    var next := attempts + [a];
    forall k: nat | k < |next| && NeverBack(clock, k) ensures next[k].skipped <==> CoolingDown(next, clock, k) {
      CoolingStays(attempts, a, clock, k);
      if k < |attempts| { assert next[k] == attempts[k]; }
    }
  }

  lemma CountUpTo(s: set<nat>, n: nat)
    requires forall i :: i in s ==> i < n
    ensures |s| <= n && (|s| == n <==> forall i: nat :: i < n ==> i in s)
  {
    if n > 0 { CountUpTo(s - {n - 1}, n - 1); }
  }

  /** In a call under two minutes that means: six calls, then skips only. */
  lemma ShortCallSkips(attempts: seq<FallbackAttempt>, clock: nat -> int, k: nat)
    requires SkipsExplained(attempts, clock) && k < |attempts| && NeverBack(clock, k) && ShortCall(clock, k)
    ensures attempts[k].skipped <==> k >= 6
  {
    if k >= 6 {
      var calls := RecentCalls(attempts, clock, 6, clock(6));
      forall i: nat | i < 6 ensures i in calls { ShortCallSkips(attempts, clock, i); }
      CountUpTo(calls, 6);
      assert Overheated(attempts, clock, 5) by { ShortCallSkips(attempts, clock, 5); }
    } else {
      forall j: nat | j < k ensures !Overheated(attempts, clock, j) {
        CountUpTo(RecentCalls(attempts, clock, j + 1, clock(j + 1)), j + 1);
      }
    }
  }

  lemma {:induction false} FailureCounted(windows: map<string, seq<int>>, cooldowns: map<string, int>, active: string,
                       attempts: seq<FallbackAttempt>, a: FallbackAttempt, clock: nat -> int)
    requires Watched(windows, cooldowns, active, attempts, clock) && !a.skipped
    requires ShortCall(clock, |attempts|) ==> RealCalls(attempts) < 6
    ensures var now := clock(|attempts| + 1); var after := Recorded(windows, active, now);
      && Watched(after, Cooled(after, cooldowns, active, now), active, attempts + [a], clock)
      && (ShortCall(clock, |attempts|) ==> RealCalls(attempts + [a]) <= 6)
  {
    FailureTracked(windows, cooldowns, active, RealCalls(attempts), clock, |attempts|);
    EntrySnoc(attempts, a, clock);
    if NeverBack(clock, |attempts| + 1) { CallFollowed(windows, cooldowns, active, attempts, a, clock, clock(|attempts| + 1)); }
  }

  lemma SkipEntry(attempts: seq<FallbackAttempt>, name: string, model: string,
                  outcome: nat -> Result<Response, string>, clock: nat -> int)
    requires Faithful(attempts, outcome, clock) && !EndsInSuccess(attempts)
    ensures var next := attempts + [Skip(name, model)];
      && RealEvents(next, clock) == RealEvents(attempts, clock) && RealCalls(next) == RealCalls(attempts)
      && Faithful(next, outcome, clock) && !EndsInSuccess(next)
  {
    EntrySnoc(attempts, Skip(name, model), clock);
    FaithfulSnoc(attempts, Skip(name, model), outcome, clock);
  }

  method CallActive(r: Router, t: CooldownTracker, model: string, attempts: seq<FallbackAttempt>,
                    outcome: nat -> Result<Response, string>, clock: nat -> int, ghost base: seq<Event>)
    returns (next: seq<FallbackAttempt>)
    requires r.Valid() && r.log == base + RealEvents(attempts, clock)
    requires Faithful(attempts, outcome, clock) && !EndsInSuccess(attempts)
    requires Watched(t.windows, t.cooldowns, r.activeName, attempts, clock)
    requires ShortCall(clock, |attempts|) ==> RealCalls(attempts) < 6
    modifies r`log, r.stats[r.activeName], t
    ensures r.Valid() && r.log == base + RealEvents(next, clock) && Faithful(next, outcome, clock)
    ensures next == attempts + [Called(r.activeName, model, |attempts|, outcome, clock)]
    ensures ShortCall(clock, |attempts|) ==> RealCalls(next) <= 6
    ensures !EndsInSuccess(next) ==> Watched(t.windows, t.cooldowns, r.activeName, next, clock)
  {
    ghost var windows, cooldowns := t.windows, t.cooldowns;
    next := CallAndRecord(r, t, r.activeName, r.activeProvider, model, attempts, outcome, clock, base);
    FailureCounted(windows, cooldowns, r.activeName, attempts, next[|attempts|], clock);
  }

  /** One turn of the loop over the active provider's models. */
  method ConsiderActive(r: Router, t: CooldownTracker, model: string, attempts: seq<FallbackAttempt>,
                        outcome: nat -> Result<Response, string>, clock: nat -> int, ghost base: seq<Event>)
    returns (next: seq<FallbackAttempt>)
    requires r.Valid() && r.log == base + RealEvents(attempts, clock)
    requires Faithful(attempts, outcome, clock) && !EndsInSuccess(attempts)
    requires Watched(t.windows, t.cooldowns, r.activeName, attempts, clock) && SkipsExplained(attempts, clock)
    modifies r`log, r.stats[r.activeName], t
    ensures r.Valid() && r.log == base + RealEvents(next, clock) && Faithful(next, outcome, clock)
    ensures |next| == |attempts| + 1 && attempts <= next
    ensures next[|attempts|].provider == r.activeName && next[|attempts|].model == model
    ensures SkipsExplained(next, clock)
    ensures ShortCall(clock, |attempts|) ==> RealCalls(next) <= 6
    ensures !EndsInSuccess(next) ==> Watched(t.windows, t.cooldowns, r.activeName, next, clock)
  {
    if NeverBack(clock, |attempts|) { CooldownMeans(t.windows, t.cooldowns, r.activeName, attempts, clock); }
    if t.IsInCooldown(r.activeName, clock(|attempts|)) {
      SkipFollowed(t.windows, t.cooldowns, r.activeName, attempts, Skip(r.activeName, model), clock);
      SkipEntry(attempts, r.activeName, model, outcome, clock);
      next := attempts + [Skip(r.activeName, model)];
      SkipsSnoc(attempts, Skip(r.activeName, model), clock);
    } else {
      SkipsSnoc(attempts, Called(r.activeName, model, |attempts|, outcome, clock), clock);
      next := CallActive(r, t, model, attempts, outcome, clock, base);
    }
  }

  /** The active phase ended early only on a success or an error not worth retrying. */
  predicate ActiveDone(active: string, models: seq<string>, attempts: seq<FallbackAttempt>) {
    && ActivePhase(active, models, attempts)
    && (|attempts| < |models| ==> EndsInSuccess(attempts) || (attempts != [] && Fatal(attempts[|attempts| - 1])))
  }

  /** The loop over the active provider's models has not met a reason to stop. */
  predicate StillTrying(active: string, models: seq<string>, attempts: seq<FallbackAttempt>) {
    && ActivePhase(active, models, attempts) && !EndsInSuccess(attempts)
    && (attempts != [] ==> !Fatal(attempts[|attempts| - 1]))
  }

  lemma ActiveSnoc(active: string, models: seq<string>, attempts: seq<FallbackAttempt>, next: seq<FallbackAttempt>)
    requires StillTrying(active, models, attempts) && |attempts| < |models|
    requires attempts <= next && |next| == |attempts| + 1
    requires next[|attempts|].provider == active && next[|attempts|].model == models[|attempts|]
    ensures ActivePhase(active, models, next)
  {
    forall k | 0 <= k < |next| - 1 ensures !Fatal(next[k]) {
      assert next[k] == attempts[k];
    }
  }

  method TryActiveModels(r: Router, t: CooldownTracker, models: seq<string>, outcome: nat -> Result<Response, string>,
                         clock: nat -> int) returns (attempts: seq<FallbackAttempt>)
    requires r.Valid() && t.windows == map[] && t.cooldowns == map[]
    modifies r`log, r.stats[r.activeName], t
    ensures r.Valid() && r.log == old(r.log) + RealEvents(attempts, clock)
    ensures Faithful(attempts, outcome, clock) && ActiveDone(r.activeName, models, attempts)
    ensures SkipsExplained(attempts, clock)
    ensures ShortCall(clock, |attempts|) ==> RealCalls(attempts) <= 6
    ensures !EndsInSuccess(attempts) ==> Watched(t.windows, t.cooldowns, r.activeName, attempts, clock)
  {
    attempts := [];
    ghost var base := r.log;
    var i := 0;
    while i < |models|
      invariant i == |attempts| <= |models|
      invariant r.Valid() && r.log == base + RealEvents(attempts, clock) && Faithful(attempts, outcome, clock)
      invariant StillTrying(r.activeName, models, attempts) && SkipsExplained(attempts, clock)
      invariant Watched(t.windows, t.cooldowns, r.activeName, attempts, clock)
    {
      ghost var before := attempts;
      attempts := ConsiderActive(r, t, models[i], attempts, outcome, clock, base);
      ActiveSnoc(r.activeName, models, before, attempts);
      i := i + 1;
      if EndsInSuccess(attempts) || Fatal(attempts[i - 1]) { return; }
    }
  }

  /** The history as the k-th entry found it. */
  function HistoryBefore(base: seq<Event>, attempts: seq<FallbackAttempt>, k: nat, clock: nat -> int): seq<Event>
    requires k <= |attempts|
  {
    base + RealEvents(attempts[..k], clock)
  }

  /** An alternate's entry: another registered name, the requested model, called
      exactly when healthy at its turn. */
  ghost predicate AlternateEntry(u: Setup, base: seq<Event>, attempts: seq<FallbackAttempt>, k: nat, model: string,
                                 clock: nat -> int)
    requires k < |attempts|
  {
    var a := attempts[k];
    && a.provider in u.providers && a.provider != u.activeName && a.model == model
    && (!a.skipped <==> HealthyBy(HistoryBefore(base, attempts, k, clock), Sharing(u.stats, a.provider), clock(k)))
  }

  function ProviderNames(attempts: seq<FallbackAttempt>): set<string> {
    set k | 0 <= k < |attempts| :: attempts[k].provider
  }

  /** Entries from position `from` on are the alternates outside `todo`, once each. */
  ghost predicate AlternatePhase(u: Setup, base: seq<Event>, attempts: seq<FallbackAttempt>, from: nat, model: string,
                                 clock: nat -> int, todo: set<string>)
    requires from <= |attempts|
  {
    && (forall k :: from <= k < |attempts| ==> AlternateEntry(u, base, attempts, k, model, clock))
    && (forall j, k :: from <= j < k < |attempts| ==> attempts[j].provider != attempts[k].provider)
    && ProviderNames(attempts[from..]) == u.providers.Keys - {u.activeName} - todo
  }

  lemma ProviderNamesSnoc(attempts: seq<FallbackAttempt>, a: FallbackAttempt, from: nat)
    requires from <= |attempts|
    ensures ProviderNames((attempts + [a])[from..]) == ProviderNames(attempts[from..]) + {a.provider}
  {
    var tail, more := attempts[from..], (attempts + [a])[from..];
    assert more == tail + [a];
    forall n | n in ProviderNames(tail) + {a.provider} ensures n in ProviderNames(more) {
      if n == a.provider {
        assert more[|tail|].provider == n;
      } else {
        var k :| 0 <= k < |tail| && tail[k].provider == n;
        assert more[k].provider == n;
      }
    }
  }

  lemma AlternateSnoc(u: Setup, base: seq<Event>, attempts: seq<FallbackAttempt>, a: FallbackAttempt, from: nat,
                      model: string, clock: nat -> int, todo: set<string>)
    requires from <= |attempts| && AlternatePhase(u, base, attempts, from, model, clock, todo)
    requires a.provider in todo && a.provider in u.providers && a.provider != u.activeName && a.model == model
    requires !a.skipped <==>
      HealthyBy(base + RealEvents(attempts, clock), Sharing(u.stats, a.provider), clock(|attempts|))
    ensures AlternatePhase(u, base, attempts + [a], from, model, clock, todo - {a.provider})
  {
    var more := attempts + [a];
    assert more[..|attempts|] == attempts;
    forall k | from <= k < |more| ensures AlternateEntry(u, base, more, k, model, clock) {
      if k < |attempts| {
        assert AlternateEntry(u, base, attempts, k, model, clock);
        assert more[..k] == attempts[..k];
      }
    }
    forall j, k | from <= j < k < |more| ensures more[j].provider != more[k].provider {
      if k == |attempts| {
        assert attempts[from..][j - from].provider in ProviderNames(attempts[from..]);
      }
    }
    ProviderNamesSnoc(attempts, a, from);
  }

  /** A tracker that knows none of these names. */
  ghost predicate Untracked(t: CooldownTracker, names: set<string>)
    reads t
  {
    forall name :: name in names ==> name !in t.windows && name !in t.cooldowns
  }

  /** One turn of the loop over the other names. */
  method ConsiderOther(r: Router, t: CooldownTracker, name: string, model: string, attempts: seq<FallbackAttempt>,
                       outcome: nat -> Result<Response, string>, clock: nat -> int, ghost base: seq<Event>,
                       ghost from: nat, ghost todo: set<string>) returns (next: seq<FallbackAttempt>)
    requires r.Valid() && r.log == base + RealEvents(attempts, clock)
    requires Faithful(attempts, outcome, clock) && !EndsInSuccess(attempts)
    requires name in r.providers && name != r.activeName && name in todo && Untracked(t, todo)
    requires from <= |attempts| && AlternatePhase(r.View(), base, attempts, from, model, clock, todo)
    modifies r`log, r.stats[name], t
    ensures r.Valid() && r.log == base + RealEvents(next, clock) && Faithful(next, outcome, clock)
    ensures attempts <= next && AlternatePhase(r.View(), base, next, from, model, clock, todo - {name})
    ensures !EndsInSuccess(next) ==> Untracked(t, todo - {name})
  {
    var k := |attempts|;
    var healthy := r.IsHealthy(name, clock(k));
    if !healthy || t.IsInCooldown(name, clock(k)) {
      SkipEntry(attempts, name, model, outcome, clock);
      AlternateSnoc(r.View(), base, attempts, Skip(name, model), from, model, clock, todo);
      next := attempts + [Skip(name, model)];
    } else {
      AlternateSnoc(r.View(), base, attempts, Called(name, model, k, outcome, clock), from, model, clock, todo);
      next := CallOther(r, t, name, model, attempts, outcome, clock, base, todo);
    }
  }

  method CallOther(r: Router, t: CooldownTracker, name: string, model: string, attempts: seq<FallbackAttempt>,
                   outcome: nat -> Result<Response, string>, clock: nat -> int, ghost base: seq<Event>,
                   ghost todo: set<string>) returns (next: seq<FallbackAttempt>)
    requires r.Valid() && r.log == base + RealEvents(attempts, clock)
    requires Faithful(attempts, outcome, clock) && !EndsInSuccess(attempts)
    requires name in r.providers && name in todo && Untracked(t, todo)
    modifies r`log, r.stats[name], t
    ensures r.Valid() && r.log == base + RealEvents(next, clock) && Faithful(next, outcome, clock)
    ensures next == attempts + [Called(name, model, |attempts|, outcome, clock)]
    ensures !EndsInSuccess(next) ==> Untracked(t, todo - {name})
  {
    var k := |attempts|;
    AllRecent([clock(k + 1)], clock(k + 1));
    assert WindowOf(t.windows, name) + [clock(k + 1)] == [clock(k + 1)];
    next := CallAndRecord(r, t, name, r.providers[name], model, attempts, outcome, clock, base);
  }

  datatype FallbackResult = FallbackResult(response: Response, provider: string, model: string, attempts: seq<FallbackAttempt>)

  method TryOthers(r: Router, t: CooldownTracker, model: string, first: seq<FallbackAttempt>,
                   outcome: nat -> Result<Response, string>, clock: nat -> int, ghost base: seq<Event>)
    returns (attempts: seq<FallbackAttempt>, ghost left: set<string>)
    requires r.Valid() && r.log == base + RealEvents(first, clock)
    requires Faithful(first, outcome, clock) && !EndsInSuccess(first)
    requires t.windows.Keys <= {r.activeName} && t.cooldowns.Keys <= {r.activeName}
    modifies r`log, r.stats.Values, t
    ensures r.Valid() && r.log == base + RealEvents(attempts, clock) && Faithful(attempts, outcome, clock)
    ensures first <= attempts && AlternatePhase(r.View(), base, attempts, |first|, model, clock, left)
    ensures !EndsInSuccess(attempts) ==> left == {}
  {
    attempts := first;
    var todo := r.providers.Keys - {r.activeName};
    left := todo;
    while todo != {} && !EndsInSuccess(attempts)
      invariant r.Valid() && r.log == base + RealEvents(attempts, clock) && Faithful(attempts, outcome, clock)
      invariant first <= attempts && left == todo <= r.providers.Keys - {r.activeName}
      invariant AlternatePhase(r.View(), base, attempts, |first|, model, clock, todo)
      invariant !EndsInSuccess(attempts) ==> Untracked(t, todo)
      decreases todo
    {
      var name :| name in todo;
      attempts := ConsiderOther(r, t, name, model, attempts, outcome, clock, base, |first|, todo);
      todo := todo - {name};
      left := todo;
    }
  }

  // ----- calls of one record, whatever names they are made under -----

  /** The real calls under any of the names. */
  function CallsUnder(attempts: seq<FallbackAttempt>, names: set<string>): nat {
    if attempts == [] then 0
    else
      var a := attempts[|attempts| - 1];
      CallsUnder(attempts[..|attempts| - 1], names) + if !a.skipped && a.provider in names then 1 else 0
  }

  lemma {:induction false} CallsOfOneName(attempts: seq<FallbackAttempt>, name: string, names: set<string>)
    requires name in names && forall k :: 0 <= k < |attempts| ==> attempts[k].provider == name
    ensures CallsUnder(attempts, names) == RealCalls(attempts)
  {
    if attempts != [] { CallsOfOneName(attempts[..|attempts| - 1], name, names); }
  }

  /** While nothing has succeeded every call is a failure the record remembers. */
  lemma {:induction false} CallsAreFailures(base: seq<Event>, attempts: seq<FallbackAttempt>, names: set<string>, clock: nat -> int)
    requires forall k :: 0 <= k < |attempts| ==> !Succeeded(attempts[k])
    requires ShortCall(clock, |attempts|)
    ensures var log := base + RealEvents(attempts, clock);
      && CallsUnder(attempts, names) <= FailsSince(log, names)
      && (CallsUnder(attempts, names) > 0 ==> LastFailure(log, names) >= clock(0))
  {
    if attempts != [] {
      var n := |attempts| - 1;
      var front, a := attempts[..n], attempts[n];
      CallsAreFailures(base, front, names, clock);
      assert attempts == front + [a];
      EntrySnoc(front, a, clock);
      if a.skipped {
        assert RealEvents(attempts, clock) == RealEvents(front, clock);
      } else {
        var e := Event(a.provider, a.error.None?, clock(n + 1));
        HistorySnoc(base + RealEvents(front, clock), e, names);
        assert base + RealEvents(attempts, clock) == base + RealEvents(front, clock) + [e];
      }
    }
  }

  /** A name is still healthy only before the sixth failure of its record. */
  lemma HealthyMeansFewCalls(base: seq<Event>, attempts: seq<FallbackAttempt>, names: set<string>, clock: nat -> int)
    requires forall k :: 0 <= k < |attempts| ==> !Succeeded(attempts[k])
    requires ShortCall(clock, |attempts|) && HealthyBy(base + RealEvents(attempts, clock), names, clock(|attempts|))
    ensures CallsUnder(attempts, names) <= 5
  {
    CallsAreFailures(base, attempts, names, clock);
  }

  lemma {:induction false} SharedCallsBounded(u: Setup, base: seq<Event>, attempts: seq<FallbackAttempt>, from: nat,
                                              model: string, clock: nat -> int, left: set<string>, k: nat)
    requires u.activeName in u.stats && u.providers.Keys <= u.stats.Keys && from <= k <= |attempts|
    requires AlternatePhase(u, base, attempts, from, model, clock, left)
    requires forall j :: 0 <= j < |attempts| - 1 ==> !Succeeded(attempts[j])
    requires ShortCall(clock, |attempts|) && CallsUnder(attempts[..from], Sharing(u.stats, u.activeName)) <= 6
    ensures CallsUnder(attempts[..k], Sharing(u.stats, u.activeName)) <= 6
    decreases k
  {
    if k > from {
      SharedCallsBounded(u, base, attempts, from, model, clock, left, k - 1);
      AliasCallsBounded(u, base, attempts, from, model, clock, left, k - 1);
      assert attempts[..k] == attempts[..k - 1] + [attempts[k - 1]];
      CallsSnoc(attempts[..k - 1], attempts[k - 1], Sharing(u.stats, u.activeName));
    }
  }

  /** Before an alternate sharing the active record is called, that has had at most five calls. */
  lemma AliasCallsBounded(u: Setup, base: seq<Event>, attempts: seq<FallbackAttempt>, from: nat, model: string,
                          clock: nat -> int, left: set<string>, k: nat)
    requires u.activeName in u.stats && u.providers.Keys <= u.stats.Keys && from <= k < |attempts|
    requires AlternatePhase(u, base, attempts, from, model, clock, left)
    requires forall j :: 0 <= j < k ==> !Succeeded(attempts[j])
    requires ShortCall(clock, |attempts|)
    ensures !attempts[k].skipped && attempts[k].provider in Sharing(u.stats, u.activeName) ==>
      CallsUnder(attempts[..k], Sharing(u.stats, u.activeName)) <= 5
  {
    if !attempts[k].skipped && attempts[k].provider in Sharing(u.stats, u.activeName) {
      AliasWasHealthy(u, base, attempts, from, k, model, clock, left);
      HealthyMeansFewCalls(base, attempts[..k], Sharing(u.stats, u.activeName), clock);
    }
  }

  lemma CallsSnoc(attempts: seq<FallbackAttempt>, a: FallbackAttempt, names: set<string>)
    ensures CallsUnder(attempts + [a], names) == CallsUnder(attempts, names) + if !a.skipped && a.provider in names then 1 else 0
  {
    assert (attempts + [a])[..|attempts|] == attempts;
  }

  lemma AliasWasHealthy(u: Setup, base: seq<Event>, attempts: seq<FallbackAttempt>, from: nat, k: nat, model: string,
                        clock: nat -> int, left: set<string>)
    requires u.activeName in u.stats && u.providers.Keys <= u.stats.Keys && from <= k < |attempts|
    requires AlternatePhase(u, base, attempts, from, model, clock, left)
    requires !attempts[k].skipped && attempts[k].provider in Sharing(u.stats, u.activeName)
    ensures HealthyBy(base + RealEvents(attempts[..k], clock), Sharing(u.stats, u.activeName), clock(k))
  {
    assert AlternateEntry(u, base, attempts, k, model, clock);
    assert Sharing(u.stats, attempts[k].provider) == Sharing(u.stats, u.activeName);
  }

  /** What the attempt list says about a whole EnhancedFallback run: the first `n`
      entries are the active phase, the rest the other names; the result is a
      success exactly when the last entry is, which then is the only one. In a call
      under two minutes the active provider is really called at most six times,
      under whatever names. */
  ghost predicate FaithfulLog(u: Setup, base: seq<Event>, model: string, outcome: nat -> Result<Response, string>,
                              clock: nat -> int, attempts: seq<FallbackAttempt>, n: nat, left: set<string>) {
    && u.activeName in u.stats && n <= |attempts|
    && Faithful(attempts, outcome, clock)
    && ActiveDone(u.activeName, ActiveModels(u, model), attempts[..n]) && SkipsExplained(attempts[..n], clock)
    && AlternatePhase(u, base, attempts, n, model, clock, left)
    && (!EndsInSuccess(attempts) ==> left == {})
    && (ShortCall(clock, |attempts|) ==> CallsUnder(attempts, Sharing(u.stats, u.activeName)) <= 6)
  }

  lemma ActiveAlone(u: Setup, base: seq<Event>, model: string, outcome: nat -> Result<Response, string>,
                    clock: nat -> int, attempts: seq<FallbackAttempt>)
    requires u.activeName in u.stats && Faithful(attempts, outcome, clock) && EndsInSuccess(attempts)
    requires ActiveDone(u.activeName, ActiveModels(u, model), attempts) && SkipsExplained(attempts, clock)
    requires ShortCall(clock, |attempts|) ==> RealCalls(attempts) <= 6
    ensures FaithfulLog(u, base, model, outcome, clock, attempts, |attempts|, u.providers.Keys - {u.activeName})
  {
    assert attempts[..|attempts|] == attempts;
    NobodyElseYet(u, base, attempts, model, clock);
    CallsOfOneName(attempts, u.activeName, Sharing(u.stats, u.activeName));
  }

  lemma NobodyElseYet(u: Setup, base: seq<Event>, attempts: seq<FallbackAttempt>, model: string, clock: nat -> int)
    ensures AlternatePhase(u, base, attempts, |attempts|, model, clock, u.providers.Keys - {u.activeName})
  {}

  lemma ActiveThenOthers(u: Setup, base: seq<Event>, model: string, outcome: nat -> Result<Response, string>,
                         clock: nat -> int, first: seq<FallbackAttempt>, attempts: seq<FallbackAttempt>, left: set<string>)
    requires u.activeName in u.stats && u.providers.Keys <= u.stats.Keys
    requires Faithful(attempts, outcome, clock) && first <= attempts
    requires ActiveDone(u.activeName, ActiveModels(u, model), first) && SkipsExplained(first, clock)
    requires AlternatePhase(u, base, attempts, |first|, model, clock, left) && (!EndsInSuccess(attempts) ==> left == {})
    requires ShortCall(clock, |first|) ==> RealCalls(first) <= 6
    ensures FaithfulLog(u, base, model, outcome, clock, attempts, |first|, left)
  {
    assert attempts[..|first|] == first;
    SharingBounded(u, base, model, clock, first, attempts, left);
  }

  lemma SharingBounded(u: Setup, base: seq<Event>, model: string, clock: nat -> int,
                       first: seq<FallbackAttempt>, attempts: seq<FallbackAttempt>, left: set<string>)
    requires u.activeName in u.stats && u.providers.Keys <= u.stats.Keys && first <= attempts
    requires forall k :: 0 <= k < |first| ==> first[k].provider == u.activeName
    requires forall j :: 0 <= j < |attempts| - 1 ==> !Succeeded(attempts[j])
    requires AlternatePhase(u, base, attempts, |first|, model, clock, left)
    requires ShortCall(clock, |first|) ==> RealCalls(first) <= 6
    ensures ShortCall(clock, |attempts|) ==> CallsUnder(attempts, Sharing(u.stats, u.activeName)) <= 6
  {
    CallsOfOneName(first, u.activeName, Sharing(u.stats, u.activeName));
    if ShortCall(clock, |attempts|) {
      assert attempts[..|first|] == first && attempts[..|attempts|] == attempts;
      SharedCallsBounded(u, base, attempts, |first|, model, clock, left, |attempts|);
    }
  }

  /** The second phase of a run whose active phase gave no answer. */
  method FinishWithOthers(r: Router, t: CooldownTracker, model: string, first: seq<FallbackAttempt>,
                          outcome: nat -> Result<Response, string>, clock: nat -> int, ghost base: seq<Event>)
    returns (attempts: seq<FallbackAttempt>, ghost left: set<string>)
    requires r.Valid() && r.log == base + RealEvents(first, clock)
    requires Faithful(first, outcome, clock) && !EndsInSuccess(first)
    requires t.windows.Keys <= {r.activeName} && t.cooldowns.Keys <= {r.activeName}
    requires ActiveDone(r.activeName, ActiveModels(r.View(), model), first) && SkipsExplained(first, clock)
    requires ShortCall(clock, |first|) ==> RealCalls(first) <= 6
    modifies r`log, r.stats.Values, t
    ensures r.Valid() && r.log == base + RealEvents(attempts, clock)
    ensures FaithfulLog(r.View(), base, model, outcome, clock, attempts, |first|, left)
  {
    ghost var u := r.View();
    attempts, left := TryOthers(r, t, model, first, outcome, clock, base);
    ActiveThenOthers(u, base, model, outcome, clock, first, attempts, left);
  }

  function Report(attempts: seq<FallbackAttempt>, outcome: nat -> Result<Response, string>): Result<FallbackResult, string> {
    if EndsInSuccess(attempts) && outcome(|attempts| - 1).Ok? then
      var last := attempts[|attempts| - 1];
      Ok(FallbackResult(outcome(|attempts| - 1).value, last.provider, last.model, attempts))
    else Err("all providers failed")
  }

  lemma ReportIsLastCall(attempts: seq<FallbackAttempt>, outcome: nat -> Result<Response, string>, clock: nat -> int)
    requires Faithful(attempts, outcome, clock)
    ensures Report(attempts, outcome).Ok? <==> attempts != [] && !attempts[|attempts| - 1].skipped && outcome(|attempts| - 1).Ok?
    ensures Report(attempts, outcome).Ok? <==> EndsInSuccess(attempts)
    ensures match Report(attempts, outcome)
      case Ok(r) =>
        var last := attempts[|attempts| - 1];
        Ok(r.response) == outcome(|attempts| - 1) && r.provider == last.provider && r.model == last.model && r.attempts == attempts
      case Err(e) => e == "all providers failed"
  {}

  /** What an entry tells of its call. */
  lemma EntryMeans(attempts: seq<FallbackAttempt>, outcome: nat -> Result<Response, string>, clock: nat -> int, k: nat)
    requires Faithful(attempts, outcome, clock) && k < |attempts|
    ensures var a := attempts[k];
      if a.skipped then a.error == None && a.reason == NoReason && a.duration == 0
      else
        && a.duration == clock(k + 1) - clock(k) && a.reason == Classify(a.error)
        && (match outcome(k) case Ok(_) => a.error == None && a.reason == NoReason case Err(e) => a.error == Some(e))
    ensures forall j :: 0 <= j < k ==> attempts[j].skipped || outcome(j).Err?
  {
    forall j | 0 <= j < k ensures attempts[j].skipped || outcome(j).Err? {
      assert !Succeeded(attempts[j]);
    }
  }

  method EnhancedFallback(r: Router, model: string, outcome: nat -> Result<Response, string>, clock: nat -> int)
    returns (result: Result<FallbackResult, string>, ghost attempts: seq<FallbackAttempt>, ghost n: nat, ghost left: set<string>)
    requires r.Valid()
    modifies r`log, r.stats.Values
    ensures r.Valid() && r.log == old(r.log) + RealEvents(attempts, clock)
    ensures FaithfulLog(r.View(), old(r.log), model, outcome, clock, attempts, n, left)
    ensures result == Report(attempts, outcome) && (result.Ok? <==> EndsInSuccess(attempts))
  {
    var t := new CooldownTracker();
    ghost var base := r.log;
    var list := TryActiveModels(r, t, ActiveModels(r.View(), model), outcome, clock);
    n := |list|;
    left := r.providers.Keys - {r.activeName};
    if EndsInSuccess(list) {
      ActiveAlone(r.View(), base, model, outcome, clock, list);
    } else {
      list, left := FinishWithOthers(r, t, model, list, outcome, clock, base);
    }
    attempts := list;
    ReportIsLastCall(list, outcome, clock);
    result := Report(list, outcome);
  }
}
