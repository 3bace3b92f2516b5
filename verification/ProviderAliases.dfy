/** When completion with fallback asks one provider again under another name: a
    protocol alias is a name of its own, but shares its model's provider and
    statistics. */
module ProviderAliases {
  import opened Wrappers
  import opened ProviderRouter

  /** Two calls under different names that share a record, and so a provider. */
  ghost predicate AskedTwice(u: Setup, attempts: seq<Attempt>) {
    exists i, j :: 0 <= i < j < |attempts| && Twins(u, attempts[i].name, attempts[j].name)
  }

  ghost predicate Twins(u: Setup, m: string, n: string) {
    m != n && m in u.stats && n in u.stats && u.stats[m] == u.stats[n]
  }

  /** A router over these entries with some registered name active. */
  ghost predicate SetUp(u: Setup, entries: seq<ModelEntry>) {
    && Registered(u.providers, u.stats, entries, Owners(entries))
    && u.activeName in u.providers && u.activeProvider == u.providers[u.activeName]
  }

  predicate OwnTwins(entries: seq<ModelEntry>, m: string, n: string) {
    m != n && m in Owners(entries) && n in Owners(entries) && Owners(entries)[m] == Owners(entries)[n]
  }

  predicate OtherOwner(entries: seq<ModelEntry>, active: string, x: string) {
    active in Owners(entries) && x in Owners(entries) && Owners(entries)[x] != Owners(entries)[active]
  }

  /** The condition on the configuration: two names share an owner, and either the
      active name has fewer than five fallback models or some name has another owner. */
  ghost predicate CanAskTwice(entries: seq<ModelEntry>, u: Setup)
    requires u.activeName in u.stats
  {
    && (exists m, n :: OwnTwins(entries, m, n))
    && (|u.stats[u.activeName].fallbackModels| < 5 || exists x :: OtherOwner(entries, u.activeName, x))
  }

  ghost predicate ClockForward(clock: nat -> int) {
    forall i: nat, j: nat :: i <= j ==> clock(i) <= clock(j)
  }

  datatype Run = Run(base: seq<Event>, attempts: seq<Attempt>, model: string, outcome: nat -> Result<Response, string>,
                     clock: nat -> int, left: set<string>, result: Result<Response, string>)

  /** A run CompleteWithFallback can make, from any history. */
  ghost predicate IsRun(u: Setup, r: Run) {
    ClockForward(r.clock) && FallbackResult(u, r.base, r.attempts, r.model, r.outcome, r.clock, r.left, r.result)
  }

  lemma TwinsShareOwner(u: Setup, entries: seq<ModelEntry>, m: string, n: string)
    requires SetUp(u, entries)
    ensures Twins(u, m, n) <==> OwnTwins(entries, m, n)
  {}

  // ----- a lone, failing record is not asked again -----

  lemma {:induction false} FailuresOf(base: seq<Event>, attempts: seq<Attempt>, names: set<string>, clock: nat -> int)
    requires forall k :: 0 <= k < |attempts| ==> attempts[k].name in names && !attempts[k].ok
    ensures var log := base + Events(attempts, clock);
      && FailsSince(log, names) == FailsSince(base, names) + |attempts|
      && (attempts != [] ==> LastFailure(log, names) == clock(|attempts|))
  {
    if attempts == [] {
      assert base + Events(attempts, clock) == base;
    } else {
      var n := |attempts| - 1;
      FailuresOf(base, attempts[..n], names, clock);
      assert attempts == attempts[..n] + [attempts[n]];
      LogSnoc(base, attempts[..n], attempts[n], clock);
      HistorySnoc(base + Events(attempts[..n], clock), Event(attempts[n].name, false, clock(n + 1)), names);
    }
  }

  /** With six active models and no name of another owner, no alternate is asked. */
  lemma LoneRecordAskedOnce(u: Setup, entries: seq<ModelEntry>, r: Run)
    requires SetUp(u, entries) && IsRun(u, r)
    requires |u.stats[u.activeName].fallbackModels| >= 5 && forall x :: !OtherOwner(entries, u.activeName, x)
    ensures forall k :: 0 <= k < |r.attempts| ==> r.attempts[k].name == u.activeName
  {
    var n := |ActiveModels(u, r.model)|;
    forall k | 0 <= k < |r.attempts| && k < n ensures r.attempts[k].name == u.activeName {
      ActiveAttemptsAlike(u, r, k);
    }
    if |r.attempts| > n {
      assert IsHealthyAlternate(u, r.base, r.attempts, n, r.model, r.clock);
      LoneAlternateUnhealthy(u, entries, r, n, r.attempts[n].name);
    }
  }

  lemma LoneAlternateUnhealthy(u: Setup, entries: seq<ModelEntry>, r: Run, n: nat, name: string)
    requires SetUp(u, entries) && 6 <= n <= |r.attempts| && name in u.stats && !OtherOwner(entries, u.activeName, name)
    requires forall k :: 0 <= k < n ==> r.attempts[k].name == u.activeName && !r.attempts[k].ok
    ensures !HealthyBy(LogBefore(r.base, r.attempts, n, r.clock), Sharing(u.stats, name), r.clock(n))
  {
    assert u.activeName in Sharing(u.stats, name);
    FailuresOf(r.base, r.attempts[..n], Sharing(u.stats, name), r.clock);
  }

  lemma ActiveAttemptsAlike(u: Setup, r: Run, i: nat)
    requires IsRun(u, r) && i < |r.attempts| && i < |ActiveModels(u, r.model)|
    ensures r.attempts[i].name == u.activeName && r.attempts[i].provider == u.activeProvider
  {
    assert IsActiveAttempt(u, r.attempts[i], ActiveModels(u, r.model)[i]);
  }

  lemma OnlyWhenPossible(u: Setup, entries: seq<ModelEntry>, r: Run)
    requires SetUp(u, entries) && IsRun(u, r) && AskedTwice(u, r.attempts)
    ensures CanAskTwice(entries, u)
  {
    var i, j :| 0 <= i < j < |r.attempts| && Twins(u, r.attempts[i].name, r.attempts[j].name);
    TwinsShareOwner(u, entries, r.attempts[i].name, r.attempts[j].name);
    assert OwnTwins(entries, r.attempts[i].name, r.attempts[j].name);
    if |u.stats[u.activeName].fallbackModels| >= 5 && forall x :: !OtherOwner(entries, u.activeName, x) {
      LoneRecordAskedOnce(u, entries, r);
    }
  }

  // ----- otherwise some run does -----

  function FirstCalls(u: Setup): seq<Attempt>
    requires u.activeName in u.stats
  {
    var models := ActiveModels(u, "");
    seq(|models|, k requires 0 <= k < |models| => Attempt(u.activeName, u.activeProvider, models[k], false))
  }

  function SucceedsAt(n: nat): nat -> Result<Response, string> {
    (k: nat) => if k == n then Ok("") else Err("failed")
  }

  function Asked(u: Setup, name: string, ok: bool): Attempt
    requires name in u.providers
  {
    Attempt(name, u.providers[name], "", ok)
  }

  ghost predicate Alternate(u: Setup, name: string) {
    u.activeName in u.stats && name in u.providers && name in u.stats && name != u.activeName
  }

  /** The active models all fail, then the name answers. */
  ghost function RunOfOne(u: Setup, name: string, clock: nat -> int): Run
    requires Alternate(u, name)
  {
    var first := FirstCalls(u);
    Run([], first + [Asked(u, name, true)], "", SucceedsAt(|first|), clock,
        u.providers.Keys - {u.activeName} - {name}, Ok(""))
  }

  /** The active models all fail, then x, then the name answers. */
  ghost function RunOfTwo(u: Setup, x: string, name: string, clock: nat -> int): Run
    requires Alternate(u, x) && Alternate(u, name)
  {
    var first := FirstCalls(u);
    Run([], first + [Asked(u, x, false)] + [Asked(u, name, true)], "", SucceedsAt(|first| + 1), clock,
        u.providers.Keys - {u.activeName} - {x} - {name}, Ok(""))
  }

  /** What the history says of a record whose calls are the active ones, or none. */
  lemma {:induction false} FirstCallsTell(u: Setup, n: nat, names: set<string>, clock: nat -> int)
    requires u.activeName in u.stats && n <= |FirstCalls(u)|
    ensures var log := [] + Events(FirstCalls(u)[..n], clock);
      && (u.activeName !in names ==> FailsSince(log, names) == 0)
      && (u.activeName in names ==> FailsSince(log, names) == n && (n > 0 ==> LastFailure(log, names) == clock(n)))
  {
    if n > 0 {
      FirstCallsTell(u, n - 1, names, clock);
      var front, a := FirstCalls(u)[..n - 1], FirstCalls(u)[n - 1];
      assert FirstCalls(u)[..n] == front + [a];
      LogSnoc([], front, a, clock);
      HistorySnoc([] + Events(front, clock), Event(a.name, a.ok, clock(n)), names);
    }
  }

  lemma FirstCallsStart(u: Setup, more: seq<Attempt>, clock: nat -> int)
    requires u.activeName in u.stats
    ensures var first := FirstCalls(u);
      && |first| == |ActiveModels(u, "")|
      && (forall k :: 0 <= k < |first| ==> IsActiveAttempt(u, (first + more)[k], ActiveModels(u, "")[k]))
      && AlternatesInv(u, [], first, |first|, "", clock, u.providers.Keys - {u.activeName})
  {
    NoAlternatesYet(u, [], FirstCalls(u), "", clock);
  }

  lemma OneAlternate(u: Setup, name: string, clock: nat -> int)
    requires Alternate(u, name) && ClockForward(clock)
    requires HealthyBy([] + Events(FirstCalls(u), clock), Sharing(u.stats, name), clock(|FirstCalls(u)|))
    ensures IsRun(u, RunOfOne(u, name, clock))
  {
    var first, a := FirstCalls(u), Asked(u, name, true);
    NoAlternatesYet(u, [], first, "", clock);
    AlternateAsked(u, [], first, |first|, "", clock, u.providers.Keys - {u.activeName}, a);
    FirstCallsStart(u, [a], clock);
  }

  lemma TwoAlternates(u: Setup, x: string, name: string, clock: nat -> int)
    requires Alternate(u, x) && Alternate(u, name) && x != name && ClockForward(clock)
    requires var first := FirstCalls(u);
      && HealthyBy([] + Events(first, clock), Sharing(u.stats, x), clock(|first|))
      && HealthyBy([] + Events(first + [Asked(u, x, false)], clock), Sharing(u.stats, name), clock(|first| + 1))
    ensures IsRun(u, RunOfTwo(u, x, name, clock))
  {
    var first, a, b := FirstCalls(u), Asked(u, x, false), Asked(u, name, true);
    var left := u.providers.Keys - {u.activeName} - {a.name} - {b.name};
    assert FallbackOrder(u, [], first + [a] + [b], "", clock, left, false) by {
      NoAlternatesYet(u, [], first, "", clock);
      TwoAsked(u, first, a, b, clock);
      InOrderWith(u, first + [a] + [b], clock, left);
    }
    TwoStopAtSuccess(first, a, b);
  }

  lemma InOrderWith(u: Setup, attempts: seq<Attempt>, clock: nat -> int, left: set<string>)
    requires u.activeName in u.stats && FirstCalls(u) <= attempts
    requires AlternatesInv(u, [], attempts, |FirstCalls(u)|, "", clock, left)
    ensures FallbackOrder(u, [], attempts, "", clock, left, false)
  {
    var first, models := FirstCalls(u), ActiveModels(u, "");
    forall k | 0 <= k < |attempts| && k < |models| ensures IsActiveAttempt(u, attempts[k], models[k]) {
      assert attempts[k] == first[k];
    }
  }

  lemma TwoAsked(u: Setup, first: seq<Attempt>, a: Attempt, b: Attempt, clock: nat -> int)
    requires Alternate(u, a.name) && Alternate(u, b.name) && a.name != b.name
    requires a == Asked(u, a.name, a.ok) && b == Asked(u, b.name, b.ok)
    requires var left := u.providers.Keys - {u.activeName}; AlternatesInv(u, [], first, |first|, "", clock, left)
    requires HealthyBy([] + Events(first, clock), Sharing(u.stats, a.name), clock(|first|))
    requires HealthyBy([] + Events(first + [a], clock), Sharing(u.stats, b.name), clock(|first| + 1))
    ensures AlternatesInv(u, [], first + [a] + [b], |first|, "", clock,
                          u.providers.Keys - {u.activeName} - {a.name} - {b.name})
  {
    AlternateAsked(u, [], first, |first|, "", clock, u.providers.Keys - {u.activeName}, a);
    AlternateAsked(u, [], first + [a], |first|, "", clock, u.providers.Keys - {u.activeName} - {a.name}, b);
  }

  lemma TwoStopAtSuccess(first: seq<Attempt>, a: Attempt, b: Attempt)
    requires (forall k :: 0 <= k < |first| ==> !first[k].ok) && !a.ok && b.ok
    ensures StopsAtSuccess(first + [a] + [b], SucceedsAt(|first| + 1)) && LastSucceeded(first + [a] + [b])
  {}

  lemma AfterOneFailure(u: Setup, x: string, names: set<string>, clock: nat -> int)
    requires Alternate(u, x)
    ensures var first := FirstCalls(u);
      var log, more := [] + Events(first, clock), [] + Events(first + [Asked(u, x, false)], clock);
      && FailsSince(more, names) == FailsSince(log, names) + (if x in names then 1 else 0)
      && (x !in names ==> LastFailure(more, names) == LastFailure(log, names))
  {
    var first, a := FirstCalls(u), Asked(u, x, false);
    LogSnoc([], first, a, clock);
    HistorySnoc([] + Events(first, clock), Event(x, false, clock(|first| + 1)), names);
  }

  /** A second name of a record other than the active one. */
  lemma TwinAlternates(u: Setup, m: string, n: string) returns (r: Run)
    requires Alternate(u, m) && Alternate(u, n) && Twins(u, m, n) && u.stats[m] != u.stats[u.activeName]
    ensures IsRun(u, r) && AskedTwice(u, r.attempts)
  {
    var clock := (k: nat) => 0;
    var first := FirstCalls(u);
    assert first[..|first|] == first;
    FirstCallsTell(u, |first|, Sharing(u.stats, m), clock);
    FirstCallsTell(u, |first|, Sharing(u.stats, n), clock);
    AfterOneFailure(u, m, Sharing(u.stats, n), clock);
    TwoAlternates(u, m, n, clock);
    r := RunOfTwo(u, m, n, clock);
    assert r.attempts[|first|].name == m && r.attempts[|first| + 1].name == n;
  }

  /** A second name of the active record, while that is still healthy. */
  lemma ActiveTwin(u: Setup, n: string) returns (r: Run)
    requires Alternate(u, n) && Twins(u, u.activeName, n) && |u.stats[u.activeName].fallbackModels| < 5
    ensures IsRun(u, r) && AskedTwice(u, r.attempts)
  {
    var clock := (k: nat) => 0;
    var first := FirstCalls(u);
    assert first[..|first|] == first;
    FirstCallsTell(u, |first|, Sharing(u.stats, n), clock);
    OneAlternate(u, n, clock);
    r := RunOfOne(u, n, clock);
    assert r.attempts[0].name == u.activeName && r.attempts[|first|].name == n;
  }

  /** A second name of the active record, healthy again after x took five minutes. */
  lemma RecoveredTwin(u: Setup, x: string, n: string) returns (r: Run)
    requires Alternate(u, x) && Alternate(u, n) && Twins(u, u.activeName, n) && u.stats[x] != u.stats[n]
    ensures IsRun(u, r) && AskedTwice(u, r.attempts)
  {
    var first := FirstCalls(u);
    var clock := (k: nat) => if k <= |first| then 0 else 5 * MINUTE;
    assert first[..|first|] == first;
    FirstCallsTell(u, |first|, Sharing(u.stats, x), clock);
    FirstCallsTell(u, |first|, Sharing(u.stats, n), clock);
    AfterOneFailure(u, x, Sharing(u.stats, n), clock);
    TwoAlternates(u, x, n, clock);
    r := RunOfTwo(u, x, n, clock);
    assert r.attempts[0].name == u.activeName && r.attempts[|first| + 1].name == n;
  }

  lemma WheneverPossible(u: Setup, entries: seq<ModelEntry>) returns (r: Run)
    requires SetUp(u, entries) && CanAskTwice(entries, u)
    ensures IsRun(u, r) && AskedTwice(u, r.attempts)
  {
    var m, n :| OwnTwins(entries, m, n);
    TwinsShareOwner(u, entries, m, n);
    if u.stats[m] != u.stats[u.activeName] {
      r := TwinAlternates(u, m, n);
    } else {
      var other := if n == u.activeName then m else n;
      if |u.stats[u.activeName].fallbackModels| < 5 {
        r := ActiveTwin(u, other);
      } else {
        var x :| OtherOwner(entries, u.activeName, x);
        r := RecoveredTwin(u, x, other);
      }
    }
  }

  /** Some run of CompleteWithFallback calls one provider under two names exactly
      when the configuration has two names of one owner, and the active name has
      fewer than five fallback models or some name has another owner. */
  lemma AliasesAskedTwiceExactly(u: Setup, entries: seq<ModelEntry>)
    requires SetUp(u, entries)
    ensures (exists r :: IsRun(u, r) && AskedTwice(u, r.attempts)) <==> CanAskTwice(entries, u)
  {
    if r :| IsRun(u, r) && AskedTwice(u, r.attempts) { OnlyWhenPossible(u, entries, r); }
    if CanAskTwice(entries, u) { var r := WheneverPossible(u, entries); }
  }

  lemma AllFailed(u: Setup, r: Run)
    requires IsRun(u, r) && forall k :: r.outcome(k).Err?
    ensures r.result.Err? && r.left == {} && |r.attempts| >= |ActiveModels(u, r.model)| && !LastSucceeded(r.attempts)
  {}

  lemma SameNameTwice(attempts: seq<Attempt>, p: string)
    requires |attempts| > 2 && forall k :: 1 <= k < |attempts| ==> attempts[k].name == p
    ensures exists j, k :: 1 <= j < k < |attempts| && attempts[j].name == attempts[k].name
  {
    assert attempts[1].name == attempts[2].name;
  }

  lemma OnlyAlternateAsked(u: Setup, r: Run, p: string)
    requires IsRun(u, r) && r.base == [] && r.result.Err? && u.activeName in u.stats
    requires |ActiveModels(u, r.model)| == 1 && p != u.activeName && u.providers.Keys == {u.activeName, p}
    ensures |r.attempts| == 2 && r.attempts[1].name == p && r.attempts[1].provider == u.providers[p]
  {
    var attempts := r.attempts;
    forall k | 1 <= k < |attempts| ensures attempts[k].name == p && attempts[k].provider == u.providers[p] {
      assert IsHealthyAlternate(u, [], attempts, k, r.model, r.clock);
    }
    if |attempts| > 2 { SameNameTwice(attempts, p); }
    if |attempts| == 1 { OneCallLeavesHealthy(u, attempts, p, r.clock); }
  }

  lemma OneCallLeavesHealthy(u: Setup, attempts: seq<Attempt>, p: string, clock: nat -> int)
    requires |attempts| == 1
    ensures Names(attempts[1..]) == {} && !UnhealthyAfter(u, [], attempts, 1, p, clock)
  {
    var names := Sharing(u.stats, p);
    assert attempts == [] + [attempts[0]] && attempts[..1] == attempts;
    LogSnoc([], [], attempts[0], clock);
    HistorySnoc([] + Events([], clock), Event(attempts[0].name, attempts[0].ok, clock(1)), names);
  }

  lemma OneModelSetUp(u: Setup, entries: seq<ModelEntry>, p: ProviderId)
    requires SetUp(u, entries) && entries == [ModelEntry("m", "p", [], Some(p))] && u.activeName == "m"
    ensures u.providers == map["m" := p, "p" := p] && u.activeProvider == p && u.stats.Keys == {"m", "p"}
    ensures u.stats["m"] == u.stats["p"] && u.stats["m"].fallbackModels == []
  {
    OneEntryOwners(entries[0]);
    assert entries == [entries[0]];
    assert Owners(entries)["m"] == Owners(entries)["p"];
    assert SharedByOwner(u.stats, Owners(entries));
    assert Backed(entries, "m", u.providers["m"], u.stats["m"]) && Backed(entries, "m", u.providers["p"], u.stats["p"]);
  }

  lemma OneEntryOwners(e: ModelEntry)
    requires e.provider.Some? && e.protocol != e.modelName
    ensures Owners([e]) == map[e.modelName := e.modelName, e.protocol := e.modelName]
    ensures MakerOf([e], e.modelName) == Some(e)
  {
    assert [e][..0] == [];
    assert ModelOwners([]) == map[] && ModelOwners([e]) == map[e.modelName := e.modelName];
    assert AliasOwners(ModelOwners([e]), []) == ModelOwners([e]);
    assert MakerOf([], e.modelName) == None;
  }

  /** An example: one model m with protocol p, m active, every call failing. Every
      run from an empty history asks m and then p, which are the same provider. */
  lemma FailingModelAskedAgain(u: Setup, p: ProviderId, r: Run)
    requires SetUp(u, [ModelEntry("m", "p", [], Some(p))]) && u.activeName == "m"
    requires IsRun(u, r) && r.base == [] && forall k :: r.outcome(k).Err?
    ensures |r.attempts| == 2 && r.attempts[0].name == "m" && r.attempts[1].name == "p"
    ensures r.attempts[0].provider == r.attempts[1].provider == p && AskedTwice(u, r.attempts)
  {
    OneModelSetUp(u, [ModelEntry("m", "p", [], Some(p))], p);
    AllFailed(u, r);
    OnlyAlternateAsked(u, r, "p");
    ActiveAttemptsAlike(u, r, 0);
    assert Twins(u, r.attempts[0].name, r.attempts[1].name);
  }
}
