/** The provider router: registration under model and protocol names that share
    one statistics record, health from that record, and completion with fallback.
    Time passes only during provider calls; durations are in nanoseconds. */
module ProviderRouter {
  import opened Wrappers

  type ProviderId = nat
  type Response = string

  const MINUTE := 60_000_000_000

  /** One configured model; `provider` is what the factory makes of it, if anything. */
  datatype ModelEntry = ModelEntry(modelName: string, protocol: string, fallbackModels: seq<string>,
                                   provider: Option<ProviderId>)

  class ProviderStats {
    var failCount: nat
    var lastFailure: int
    var latencies: seq<int>
    const fallbackModels: seq<string>

    constructor (fallbackModels: seq<string>)
      ensures failCount == 0 && latencies == [] && this.fallbackModels == fallbackModels
    {
      failCount, lastFailure, latencies := 0, 0, [];
      this.fallbackModels := fallbackModels;
    }
  }

  // ----- registration -----

  /** Owners after the first loop: every creatable model name owns itself. */
  function ModelOwners(entries: seq<ModelEntry>): map<string, string> {
    if entries == [] then map[]
    else
      var m, e := ModelOwners(entries[..|entries| - 1]), entries[|entries| - 1];
      if e.modelName !in m && e.provider.Some? then m[e.modelName := e.modelName] else m
  }

  /** Owners after the second loop has seen `entries`: a protocol without an owner
      takes the one of the entry's model name, if that has one by then. */
  function AliasOwners(owners: map<string, string>, entries: seq<ModelEntry>): map<string, string> {
    if entries == [] then owners
    else
      var m, e := AliasOwners(owners, entries[..|entries| - 1]), entries[|entries| - 1];
      if e.protocol !in m && e.modelName in m then m[e.protocol := m[e.modelName]] else m
  }

  /** The model name whose provider and record each registered name uses. */
  function Owners(entries: seq<ModelEntry>): map<string, string> {
    AliasOwners(ModelOwners(entries), entries)
  }

  /** The entry that made the provider of a model name: the first creatable one. */
  function MakerOf(entries: seq<ModelEntry>, name: string): Option<ModelEntry> {
    if entries == [] then None
    else
      var before := MakerOf(entries[..|entries| - 1], name);
      var e := entries[|entries| - 1];
      if before.None? && e.modelName == name && e.provider.Some? then Some(e) else before
  }

  lemma {:induction false} ModelOwnersFacts(entries: seq<ModelEntry>)
    ensures forall n :: n in ModelOwners(entries) ==> ModelOwners(entries)[n] == n
    ensures forall n :: n in ModelOwners(entries) <==> MakerOf(entries, n).Some?
    ensures forall n :: MakerOf(entries, n).Some? ==>
      MakerOf(entries, n).value.modelName == n && MakerOf(entries, n).value.provider.Some?
  {
    if entries != [] { ModelOwnersFacts(entries[..|entries| - 1]); }
  }

  lemma {:induction false} AliasOwnersFacts(owners: map<string, string>, entries: seq<ModelEntry>)
    requires forall n :: n in owners ==> owners[n] == n
    ensures forall n :: n in owners ==> n in AliasOwners(owners, entries) && AliasOwners(owners, entries)[n] == n
    ensures forall n :: n in AliasOwners(owners, entries) ==> AliasOwners(owners, entries)[n] in owners
    ensures forall n :: n in AliasOwners(owners, entries) && n !in owners ==>
      exists i :: 0 <= i < |entries| && entries[i].protocol == n
  {
    if entries != [] {
      var k := |entries| - 1;
      AliasOwnersFacts(owners, entries[..k]);
      forall n | n in AliasOwners(owners, entries) && n !in owners
        ensures exists i :: 0 <= i < |entries| && entries[i].protocol == n
      {
        if n in AliasOwners(owners, entries[..k]) {
          var i :| 0 <= i < k && entries[..k][i].protocol == n;
          assert entries[i].protocol == n;
        }
      }
    }
  }

  /** A model name that could be created always keeps its own provider; every other
      registered name is a protocol and stands for one of them. */
  lemma OwnersFacts(entries: seq<ModelEntry>)
    ensures forall n :: MakerOf(entries, n).Some? ==> n in Owners(entries) && Owners(entries)[n] == n
    ensures forall n :: n in Owners(entries) ==>
      MakerOf(entries, Owners(entries)[n]).Some? && MakerOf(entries, Owners(entries)[n]).value.provider.Some?
    ensures forall n :: n in Owners(entries) && MakerOf(entries, n).None? ==>
      exists i :: 0 <= i < |entries| && entries[i].protocol == n
  {
    ModelOwnersFacts(entries);
    AliasOwnersFacts(ModelOwners(entries), entries);
  }

  lemma {:induction false} MakerExists(entries: seq<ModelEntry>, i: nat)
    requires i < |entries| && entries[i].provider.Some?
    ensures MakerOf(entries, entries[i].modelName).Some?
  {
    if i < |entries| - 1 { MakerExists(entries[..|entries| - 1], i); }
  }

  lemma CreatableIsRegistered(entries: seq<ModelEntry>, i: nat)
    requires i < |entries| && entries[i].provider.Some?
    ensures entries[i].modelName in Owners(entries)
  {
    MakerExists(entries, i);
    OwnersFacts(entries);
  }

  /** The first creatable entry of a name makes its provider. */
  lemma {:induction false} MakerIsFirst(entries: seq<ModelEntry>, name: string, i: nat)
    requires i < |entries| && entries[i].modelName == name && entries[i].provider.Some?
    requires forall j :: 0 <= j < i ==> entries[j].modelName != name || entries[j].provider.None?
    ensures MakerOf(entries, name) == Some(entries[i])
  {
    var n := |entries| - 1;
    if i < n {
      MakerIsFirst(entries[..n], name, i);
    } else {
      NoMaker(entries[..n], name);
    }
  }

  lemma {:induction false} NoMaker(entries: seq<ModelEntry>, name: string)
    requires forall j :: 0 <= j < |entries| ==> entries[j].modelName != name || entries[j].provider.None?
    ensures MakerOf(entries, name) == None
  {
    if entries != [] { NoMaker(entries[..|entries| - 1], name); }
  }

  /** The entry gives its protocol name away: its own model name is known by its turn. */
  predicate GivesAlias(owners: map<string, string>, entries: seq<ModelEntry>, i: nat, name: string)
    requires i < |entries|
  {
    entries[i].protocol == name && entries[i].modelName in AliasOwners(owners, entries[..i])
  }

  /** A free protocol name goes to the first entry that can give it away, and takes
      the owner that entry's model name has by then. */
  lemma {:induction false} AliasIsFirst(owners: map<string, string>, entries: seq<ModelEntry>, name: string, i: nat)
    requires name !in owners && i < |entries| && GivesAlias(owners, entries, i, name)
    requires forall j :: 0 <= j < i ==> !GivesAlias(owners, entries, j, name)
    ensures name in AliasOwners(owners, entries)
    ensures AliasOwners(owners, entries)[name] == AliasOwners(owners, entries[..i])[entries[i].modelName]
  {
    var n := |entries| - 1;
    forall j | 0 <= j < n ensures entries[..n][..j] == entries[..j] {}
    if i < n {
      forall j | 0 <= j < i ensures !GivesAlias(owners, entries[..n], j, name) {
        assert !GivesAlias(owners, entries, j, name);
      }
      AliasIsFirst(owners, entries[..n], name, i);
    } else {
      forall j | 0 <= j < n ensures !GivesAlias(owners, entries[..n], j, name) {
        assert !GivesAlias(owners, entries, j, name);
      }
      NoAlias(owners, entries[..n], name);
    }
  }

  lemma {:induction false} NoAlias(owners: map<string, string>, entries: seq<ModelEntry>, name: string)
    requires name !in owners && forall j :: 0 <= j < |entries| ==> !GivesAlias(owners, entries, j, name)
    ensures name !in AliasOwners(owners, entries)
  {
    if entries != [] {
      var n := |entries| - 1;
      forall j | 0 <= j < n ensures !GivesAlias(owners, entries[..n], j, name) {
        assert entries[..n][..j] == entries[..j];
        assert !GivesAlias(owners, entries, j, name);
      }
      NoAlias(owners, entries[..n], name);
      assert !GivesAlias(owners, entries, n, name);
    }
  }

  /** Which provider a protocol name that is no model name stands for, when every
      entry could be created: that of the first entry with the protocol. */
  lemma ProtocolStandsForFirst(entries: seq<ModelEntry>, name: string, i: nat)
    requires forall j :: 0 <= j < |entries| ==> entries[j].provider.Some? && entries[j].modelName != name
    requires i < |entries| && entries[i].protocol == name && forall j :: 0 <= j < i ==> entries[j].protocol != name
    ensures name in Owners(entries) && Owners(entries)[name] == entries[i].modelName
  {
    var owners := ModelOwners(entries);
    ModelOwnersFacts(entries);
    MakerExists(entries, i);
    NoMaker(entries, name);
    AliasOwnersFacts(owners, entries[..i]);
    AliasIsFirst(owners, entries, name, i);
  }

  // ----- history -----

  datatype Event = Event(name: string, ok: bool, time: int)

  /** Failures under any of the names since the last success under one of them. */
  function FailsSince(log: seq<Event>, names: set<string>): nat {
    if log == [] then 0
    else
      var before, e := FailsSince(log[..|log| - 1], names), log[|log| - 1];
      if e.name !in names then before else if e.ok then 0 else before + 1
  }

  /** The time of the latest failure under any of the names, 0 before the first. */
  function LastFailure(log: seq<Event>, names: set<string>): int {
    if log == [] then 0
    else
      var e := log[|log| - 1];
      if e.name in names && !e.ok then e.time else LastFailure(log[..|log| - 1], names)
  }

  /** Health as the history alone decides it. */
  predicate HealthyBy(log: seq<Event>, names: set<string>, now: int) {
    !(FailsSince(log, names) > 5 && now - LastFailure(log, names) < 5 * MINUTE)
  }

  /** A failure under one of the names with no success under any of them behind it. */
  predicate OpenFailure(log: seq<Event>, names: set<string>, k: nat) {
    && k < |log| && log[k].name in names && !log[k].ok
    && forall j :: k < j < |log| && log[j].name in names ==> !log[j].ok
  }

  predicate LatestFailure(log: seq<Event>, names: set<string>, k: nat) {
    && k < |log| && log[k].name in names && !log[k].ok
    && forall j :: k < j < |log| && log[j].name in names ==> log[j].ok
  }

  function OpenFailures(log: seq<Event>, names: set<string>): set<nat> {
    set k: nat | k < |log| && OpenFailure(log, names, k)
  }

  lemma {:induction false} FailsAreOpen(log: seq<Event>, names: set<string>)
    ensures FailsSince(log, names) == |OpenFailures(log, names)|
  {
    if log != [] {
      var n := |log| - 1;
      FailsAreOpen(log[..n], names);
      OpenSnoc(log[..n], log[n], names);
      assert log == log[..n] + [log[n]];
    }
  }

  lemma OpenSnoc(front: seq<Event>, e: Event, names: set<string>)
    ensures OpenFailures(front + [e], names) ==
      if e.name !in names then OpenFailures(front, names)
      else if e.ok then {} else OpenFailures(front, names) + {|front|}
  {
    var log := front + [e];
    forall k: nat | k < |front|
      ensures OpenFailure(log, names, k) <==> OpenFailure(front, names, k) && (e.name in names ==> !e.ok)
    {
      assert log[k] == front[k] && log[|front|] == e;
      if OpenFailure(log, names, k) {
        forall j | k < j < |front| && front[j].name in names ensures !front[j].ok { assert log[j] == front[j]; }
      }
    }
  }

  lemma {:induction false} LastFailureIsLatest(log: seq<Event>, names: set<string>, k: nat)
    requires LatestFailure(log, names, k)
    ensures LastFailure(log, names) == log[k].time
  {
    var n := |log| - 1;
    if k < n {
      assert log[..n][k] == log[k];
      LastFailureIsLatest(log[..n], names, k);
    }
  }

  lemma {:induction false} SomeLatest(log: seq<Event>, names: set<string>)
    requires FailsSince(log, names) > 0
    ensures exists k: nat :: LatestFailure(log, names, k)
  {
    var n := |log| - 1;
    if log[n].name in names {
      assert LatestFailure(log, names, n);
    } else {
      SomeLatest(log[..n], names);
      var k: nat :| LatestFailure(log[..n], names, k);
      assert LatestFailure(log, names, k);
    }
  }

  /** A record is unhealthy exactly when six failures or more have no success behind
      them and the latest is less than five minutes (3 * 10^11 ns) ago. */
  lemma HealthMeans(log: seq<Event>, names: set<string>, now: int)
    ensures HealthyBy(log, names, now) <==>
      || |OpenFailures(log, names)| <= 5
      || exists k: nat :: LatestFailure(log, names, k) && now - log[k].time >= 300_000_000_000
  {
    FailsAreOpen(log, names);
    if FailsSince(log, names) > 5 {
      SomeLatest(log, names);
      forall k: nat | LatestFailure(log, names, k) ensures LastFailure(log, names) == log[k].time {
        LastFailureIsLatest(log, names, k);
      }
    }
  }

  /** One provider call: who was asked, for which model, and whether it succeeded. */
  datatype Attempt = Attempt(name: string, provider: ProviderId, model: string, ok: bool)

  /** The events of attempts whose k-th call ended at clock(k + 1). */
  function Events(attempts: seq<Attempt>, clock: nat -> int): seq<Event> {
    seq(|attempts|, k requires 0 <= k < |attempts| => Event(attempts[k].name, attempts[k].ok, clock(k + 1)))
  }

  lemma EventsSnoc(attempts: seq<Attempt>, a: Attempt, clock: nat -> int)
    ensures Events(attempts + [a], clock) == Events(attempts, clock) + [Event(a.name, a.ok, clock(|attempts| + 1))]
  {}

  lemma LogSnoc(base: seq<Event>, attempts: seq<Attempt>, a: Attempt, clock: nat -> int)
    ensures base + Events(attempts, clock) + [Event(a.name, a.ok, clock(|attempts| + 1))] == base + Events(attempts + [a], clock)
  {
    EventsSnoc(attempts, a, clock);
  }

  lemma StopsSnoc(attempts: seq<Attempt>, a: Attempt, outcome: nat -> Result<Response, string>)
    requires StopsAtSuccess(attempts, outcome) && !LastSucceeded(attempts) && (a.ok <==> outcome(|attempts|).Ok?)
    ensures StopsAtSuccess(attempts + [a], outcome) && attempts <= attempts + [a]
    ensures LastSucceeded(attempts + [a]) <==> a.ok
  {}

  /** The calls ended as `outcome` says, and only the last may have succeeded. */
  predicate StopsAtSuccess(attempts: seq<Attempt>, outcome: nat -> Result<Response, string>) {
    && (forall k :: 0 <= k < |attempts| ==> (attempts[k].ok <==> outcome(k).Ok?))
    && (forall k :: 0 <= k < |attempts| - 1 ==> !attempts[k].ok)
  }

  predicate LastSucceeded(attempts: seq<Attempt>) {
    attempts != [] && attempts[|attempts| - 1].ok
  }

  function Names(attempts: seq<Attempt>): set<string> {
    set k | 0 <= k < |attempts| :: attempts[k].name
  }

  lemma HistorySnoc(log: seq<Event>, e: Event, names: set<string>)
    ensures FailsSince(log + [e], names) ==
      if e.name !in names then FailsSince(log, names) else if e.ok then 0 else FailsSince(log, names) + 1
    ensures LastFailure(log + [e], names) == if e.name in names && !e.ok then e.time else LastFailure(log, names)
  {
    assert (log + [e])[..|log|] == log;
  }

  /** The names that share a name's statistics record. */
  ghost function Sharing(stats: map<string, ProviderStats>, name: string): set<string> {
    set n | n in stats && name in stats && stats[n] == stats[name]
  }

  /** The provider and record come from the entry that made the owner's provider. */
  predicate Backed(entries: seq<ModelEntry>, owner: string, p: ProviderId, s: ProviderStats) {
    && MakerOf(entries, owner).Some?
    && MakerOf(entries, owner).value.provider == Some(p)
    && s.fallbackModels == MakerOf(entries, owner).value.fallbackModels
  }

  /** Providers and records are those of each name's owner, and names share a
      record exactly when they share an owner. */
  ghost predicate Registered(providers: map<string, ProviderId>, stats: map<string, ProviderStats>,
                             entries: seq<ModelEntry>, owners: map<string, string>) {
    && providers.Keys == stats.Keys == owners.Keys
    && (forall n :: n in owners ==> Backed(entries, owners[n], providers[n], stats[n]))
    && SharedByOwner(stats, owners)
  }

  ghost predicate SharedByOwner(stats: map<string, ProviderStats>, owners: map<string, string>)
    requires owners.Keys <= stats.Keys
  {
    forall m, n :: m in owners && n in owners ==> (stats[m] == stats[n] <==> owners[m] == owners[n])
  }

  lemma ShareNew(stats: map<string, ProviderStats>, owners: map<string, string>, name: string, s: ProviderStats)
    requires owners.Keys == stats.Keys && SharedByOwner(stats, owners) && name !in owners
    requires forall n :: n in owners ==> owners[n] != name && stats[n] != s
    ensures SharedByOwner(stats[name := s], owners[name := name])
  {
    var stats', owners' := stats[name := s], owners[name := name];
    forall m, n | m in owners' && n in owners' ensures stats'[m] == stats'[n] <==> owners'[m] == owners'[n] {
      if m != name && n != name {
        assert stats[m] == stats[n] <==> owners[m] == owners[n];
      }
    }
  }

  lemma MakerSnoc(entries: seq<ModelEntry>, e: ModelEntry, name: string)
    ensures MakerOf(entries + [e], name) ==
      if MakerOf(entries, name).None? && e.modelName == name && e.provider.Some? then Some(e) else MakerOf(entries, name)
    ensures ModelOwners(entries + [e]) ==
      if e.modelName !in ModelOwners(entries) && e.provider.Some?
      then ModelOwners(entries)[e.modelName := e.modelName] else ModelOwners(entries)
  {
    assert (entries + [e])[..|entries|] == entries;
  }

  lemma ModelStep(providers: map<string, ProviderId>, stats: map<string, ProviderStats>, entries: seq<ModelEntry>, e: ModelEntry)
    requires Registered(providers, stats, entries, ModelOwners(entries))
    requires e.modelName in providers || e.provider.None?
    ensures Registered(providers, stats, entries + [e], ModelOwners(entries + [e]))
  {
    ModelOwnersFacts(entries);
    MakerSnoc(entries, e, e.modelName);
    forall n | n in ModelOwners(entries) ensures MakerOf(entries + [e], n) == MakerOf(entries, n) {
      MakerSnoc(entries, e, n);
    }
  }

  lemma RegisterOne(providers: map<string, ProviderId>, stats: map<string, ProviderStats>, entries: seq<ModelEntry>,
                    more: seq<ModelEntry>, owners: map<string, string>, name: string, p: ProviderId, s: ProviderStats)
    requires Registered(providers, stats, entries, owners) && name !in owners
    requires forall n :: n in owners ==> owners[n] != name && stats[n] != s
    requires forall n :: n in owners ==> MakerOf(more, owners[n]) == MakerOf(entries, owners[n])
    requires Backed(more, name, p, s)
    ensures Registered(providers[name := p], stats[name := s], more, owners[name := name])
  {
    var providers', stats', owners' := providers[name := p], stats[name := s], owners[name := name];
    ShareNew(stats, owners, name, s);
    forall n | n in owners' ensures Backed(more, owners'[n], providers'[n], stats'[n]) {
      if n != name { assert Backed(entries, owners[n], providers[n], stats[n]); }
    }
  }

  lemma NewModelStep(providers: map<string, ProviderId>, stats: map<string, ProviderStats>, entries: seq<ModelEntry>,
                     e: ModelEntry, s: ProviderStats)
    requires Registered(providers, stats, entries, ModelOwners(entries))
    requires e.modelName !in providers && e.provider.Some?
    requires s.fallbackModels == e.fallbackModels && forall n :: n in stats ==> stats[n] != s
    ensures Registered(providers[e.modelName := e.provider.value], stats[e.modelName := s],
                       entries + [e], ModelOwners(entries + [e]))
  {
    ModelOwnersFacts(entries);
    MakerSnoc(entries, e, e.modelName);
    forall n | n in ModelOwners(entries) ensures MakerOf(entries + [e], n) == MakerOf(entries, n) {
      MakerSnoc(entries, e, n);
    }
    RegisterOne(providers, stats, entries, entries + [e], ModelOwners(entries), e.modelName, e.provider.value, s);
  }

  lemma AliasStep(providers: map<string, ProviderId>, stats: map<string, ProviderStats>, entries: seq<ModelEntry>,
                  owners: map<string, string>, e: ModelEntry)
    requires Registered(providers, stats, entries, owners) && e.protocol !in providers && e.modelName in providers
    ensures Registered(providers[e.protocol := providers[e.modelName]], stats[e.protocol := stats[e.modelName]],
                       entries, owners[e.protocol := owners[e.modelName]])
  {}

  /** A record tells its share of the history: failures since the last success,
      and when the latest one was. */
  ghost predicate Tells(s: ProviderStats, log: seq<Event>, names: set<string>)
    reads s
  {
    && s.failCount == FailsSince(log, names)
    && (s.failCount > 0 ==> s.lastFailure == LastFailure(log, names))
  }

  lemma NewRecordsTell(stats: map<string, ProviderStats>)
    requires forall n :: n in stats ==> stats[n].failCount == 0
    ensures forall n :: n in stats ==> Tells(stats[n], [], Sharing(stats, n))
  {}

  /** What a completion reads of the router and does not change. */
  datatype Setup = Setup(providers: map<string, ProviderId>, stats: map<string, ProviderStats>,
                         activeName: string, activeProvider: ProviderId)

  /** The requested model, then the active record's fallback models. */
  function ActiveModels(u: Setup, model: string): (models: seq<string>)
    requires u.activeName in u.stats
    ensures var fallback := u.stats[u.activeName].fallbackModels;
      |models| == |fallback| + 1 && models[0] == model && forall k :: 0 < k < |models| ==> models[k] == fallback[k - 1]
  {
    [model] + u.stats[u.activeName].fallbackModels
  }

  predicate IsActiveAttempt(u: Setup, a: Attempt, model: string) {
    a.name == u.activeName && a.provider == u.activeProvider && a.model == model
  }

  /** The history as the k-th attempt found it. */
  function LogBefore(base: seq<Event>, attempts: seq<Attempt>, k: nat, clock: nat -> int): seq<Event>
    requires k <= |attempts|
  {
    base + Events(attempts[..k], clock)
  }

  /** An alternate is another registered name, asked for the requested model, that
      was healthy when its turn came. */
  ghost predicate IsHealthyAlternate(u: Setup, base: seq<Event>, attempts: seq<Attempt>, k: nat, model: string,
                                     clock: nat -> int)
    requires k < |attempts|
  {
    var a := attempts[k];
    && a.name in u.providers && a.name != u.activeName && a.provider == u.providers[a.name] && a.model == model
    && HealthyBy(LogBefore(base, attempts, k, clock), Sharing(u.stats, a.name), clock(k))
  }

  ghost predicate UnhealthyAfter(u: Setup, base: seq<Event>, attempts: seq<Attempt>, from: nat, name: string,
                                 clock: nat -> int) {
    exists j :: from <= j <= |attempts| &&
      !HealthyBy(LogBefore(base, attempts, j, clock), Sharing(u.stats, name), clock(j))
  }

  /** The alternates asked from position `from` on: healthy, each name once; every
      other name outside `todo` was asked, or unhealthy at its turn. */
  ghost predicate AlternatesInv(u: Setup, base: seq<Event>, attempts: seq<Attempt>, from: nat, model: string,
                                clock: nat -> int, todo: set<string>)
    requires from <= |attempts|
  {
    && (forall k :: from <= k < |attempts| ==>
          IsHealthyAlternate(u, base, attempts, k, model, clock) && attempts[k].name !in todo)
    && (forall j, k :: from <= j < k < |attempts| ==> attempts[j].name != attempts[k].name)
    && (forall n :: n in u.providers && n != u.activeName && n !in todo ==>
          n in Names(attempts[from..]) || UnhealthyAfter(u, base, attempts, from, n, clock))
  }

  lemma AlternateSkipped(u: Setup, base: seq<Event>, attempts: seq<Attempt>, from: nat, model: string, clock: nat -> int,
                         todo: set<string>, name: string)
    requires from <= |attempts| && AlternatesInv(u, base, attempts, from, model, clock, todo) && name in todo
    requires !HealthyBy(base + Events(attempts, clock), Sharing(u.stats, name), clock(|attempts|))
    ensures AlternatesInv(u, base, attempts, from, model, clock, todo - {name})
  {
    assert attempts[..|attempts|] == attempts;
    assert UnhealthyAfter(u, base, attempts, from, name, clock);
  }

  lemma StillHealthyAlternate(u: Setup, base: seq<Event>, attempts: seq<Attempt>, a: Attempt, k: nat, model: string,
                              clock: nat -> int)
    requires k < |attempts| && IsHealthyAlternate(u, base, attempts, k, model, clock)
    ensures IsHealthyAlternate(u, base, attempts + [a], k, model, clock)
  {
    assert (attempts + [a])[..k] == attempts[..k];
  }

  lemma StillUnhealthyAfter(u: Setup, base: seq<Event>, attempts: seq<Attempt>, a: Attempt, from: nat, n: string,
                            clock: nat -> int)
    requires UnhealthyAfter(u, base, attempts, from, n, clock)
    ensures UnhealthyAfter(u, base, attempts + [a], from, n, clock)
  {
    var j :| from <= j <= |attempts| && !HealthyBy(LogBefore(base, attempts, j, clock), Sharing(u.stats, n), clock(j));
    assert (attempts + [a])[..j] == attempts[..j];
    assert !HealthyBy(LogBefore(base, attempts + [a], j, clock), Sharing(u.stats, n), clock(j));
  }

  lemma NamesSnoc(attempts: seq<Attempt>, a: Attempt, from: nat)
    requires from <= |attempts|
    ensures Names((attempts + [a])[from..]) == Names(attempts[from..]) + {a.name}
  {
    var tail, more := attempts[from..], (attempts + [a])[from..];
    assert more == tail + [a];
    forall n | n in Names(tail) + {a.name} ensures n in Names(more) {
      if n == a.name {
        assert more[|tail|].name == n;
      } else {
        var k :| 0 <= k < |tail| && tail[k].name == n;
        assert more[k].name == n;
      }
    }
  }

  lemma AlternateAsked(u: Setup, base: seq<Event>, attempts: seq<Attempt>, from: nat, model: string, clock: nat -> int,
                       todo: set<string>, a: Attempt)
    requires from <= |attempts| && AlternatesInv(u, base, attempts, from, model, clock, todo) && a.name in todo
    requires a.name in u.providers && a.name != u.activeName && a.provider == u.providers[a.name] && a.model == model
    requires HealthyBy(base + Events(attempts, clock), Sharing(u.stats, a.name), clock(|attempts|))
    ensures AlternatesInv(u, base, attempts + [a], from, model, clock, todo - {a.name})
  {
    var more := attempts + [a];
    assert more[..|attempts|] == attempts;
    forall k | from <= k < |more|
      ensures IsHealthyAlternate(u, base, more, k, model, clock) && more[k].name !in todo - {a.name}
    {
      if k < |attempts| { StillHealthyAlternate(u, base, attempts, a, k, model, clock); }
    }
    NamesSnoc(attempts, a, from);
    forall n | n in u.providers && n != u.activeName && n !in todo - {a.name}
      ensures n in Names(more[from..]) || UnhealthyAfter(u, base, more, from, n, clock)
    {
      if n != a.name && n !in Names(attempts[from..]) {
        StillUnhealthyAfter(u, base, attempts, a, from, n, clock);
      }
    }
  }

  /** The order of calls: the active provider's models first, one by one; then the
      alternates. After a failure nobody is left over. */
  ghost predicate FallbackOrder(u: Setup, base: seq<Event>, attempts: seq<Attempt>, model: string, clock: nat -> int,
                                left: set<string>, failed: bool) {
    && u.activeName in u.stats
    && var models := ActiveModels(u, model);
    && (forall k :: 0 <= k < |attempts| && k < |models| ==> IsActiveAttempt(u, attempts[k], models[k]))
    && (failed ==> |attempts| >= |models| && left == {})
    && (|attempts| >= |models| ==> AlternatesInv(u, base, attempts, |models|, model, clock, left))
  }

  /** Some of the active models, in order: all of them unless the last call succeeded. */
  ghost predicate ActiveInOrder(u: Setup, attempts: seq<Attempt>, model: string) {
    && u.activeName in u.stats && |attempts| <= |ActiveModels(u, model)|
    && (|attempts| < |ActiveModels(u, model)| ==> LastSucceeded(attempts))
    && forall k :: 0 <= k < |attempts| ==> IsActiveAttempt(u, attempts[k], ActiveModels(u, model)[k])
  }

  /** The error after all calls failed is that of the last active model, whatever
      the alternates answered. */
  ghost predicate ActiveError(u: Setup, model: string, outcome: nat -> Result<Response, string>, error: string)
  {
    && u.activeName in u.stats
    && var last := outcome(|u.stats[u.activeName].fallbackModels|);
       last.Err? && error == "all providers failed, last error: " + last.error
  }

  /** The whole result: a success is that of the last call, and only a success
      stops the calls early. */
  ghost predicate FallbackResult(u: Setup, base: seq<Event>, attempts: seq<Attempt>, model: string,
                                 outcome: nat -> Result<Response, string>, clock: nat -> int, left: set<string>,
                                 r: Result<Response, string>) {
    && StopsAtSuccess(attempts, outcome)
    && (r.Ok? <==> LastSucceeded(attempts))
    && (r.Ok? ==> r == outcome(|attempts| - 1))
    && (r.Err? ==> ActiveError(u, model, outcome, r.error))
    && FallbackOrder(u, base, attempts, model, clock, left, r.Err?)
  }

  lemma ActiveOnly(u: Setup, base: seq<Event>, attempts: seq<Attempt>, model: string,
                   outcome: nat -> Result<Response, string>, clock: nat -> int)
    requires ActiveInOrder(u, attempts, model) && StopsAtSuccess(attempts, outcome) && LastSucceeded(attempts)
    ensures FallbackResult(u, base, attempts, model, outcome, clock, u.providers.Keys - {u.activeName},
                           outcome(|attempts| - 1))
  {
    NoAlternatesYet(u, base, attempts, model, clock);
  }

  lemma ThenAlternates(u: Setup, base: seq<Event>, first: seq<Attempt>, attempts: seq<Attempt>, model: string,
                       clock: nat -> int, left: set<string>, failed: bool)
    requires ActiveInOrder(u, first, model) && !LastSucceeded(first) && first <= attempts
    requires AlternatesInv(u, base, attempts, |first|, model, clock, left) && (failed ==> left == {})
    ensures FallbackOrder(u, base, attempts, model, clock, left, failed)
  {
    assert forall k :: 0 <= k < |first| ==> attempts[k] == first[k];
  }

  lemma NoAlternatesYet(u: Setup, base: seq<Event>, attempts: seq<Attempt>, model: string, clock: nat -> int)
    ensures AlternatesInv(u, base, attempts, |attempts|, model, clock, u.providers.Keys - {u.activeName})
  {}

  class Router {
    var providers: map<string, ProviderId>
    var stats: map<string, ProviderStats>
    var activeName: string
    var activeProvider: ProviderId
    ghost var log: seq<Event>

    ghost predicate Valid()
      reads this, stats.Values
    {
      && providers.Keys == stats.Keys
      && activeName in providers && activeProvider == providers[activeName]
      && forall n {:trigger Sharing(stats, n)} :: n in stats ==> Tells(stats[n], log, Sharing(stats, n))
    }

    /** The first loop: one provider and one record per creatable model name. */
    method RegisterModels(entries: seq<ModelEntry>)
      requires providers == map[] && stats == map[]
      modifies this`providers, this`stats
      ensures Registered(providers, stats, entries, ModelOwners(entries))
      ensures forall n :: n in stats ==> fresh(stats[n]) && stats[n].failCount == 0
    {
      for i := 0 to |entries|
        invariant Registered(providers, stats, entries[..i], ModelOwners(entries[..i]))
        invariant forall n :: n in stats ==> fresh(stats[n]) && stats[n].failCount == 0
      {
        var e := entries[i];
        assert entries[..i + 1] == entries[..i] + [e];
        if e.modelName in providers {
          ModelStep(providers, stats, entries[..i], e);
          continue;
        }
        if e.provider.None? {
          ModelStep(providers, stats, entries[..i], e);
          continue;
        }
        var s := new ProviderStats(e.fallbackModels);
        NewModelStep(providers, stats, entries[..i], e, s);
        providers := providers[e.modelName := e.provider.value];
        stats := stats[e.modelName := s];
      }
      assert entries[..|entries|] == entries;
    }

    /** The second loop: protocol names become aliases, records included. */
    method RegisterProtocols(entries: seq<ModelEntry>, ghost made: set<ProviderStats>)
      requires Registered(providers, stats, entries, ModelOwners(entries))
      requires forall n :: n in stats ==> stats[n] in made
      modifies this`providers, this`stats
      ensures Registered(providers, stats, entries, Owners(entries))
      ensures forall n :: n in stats ==> stats[n] in made
    {
      ghost var owners := ModelOwners(entries);
      for i := 0 to |entries|
        invariant Registered(providers, stats, entries, AliasOwners(owners, entries[..i]))
        invariant forall n :: n in stats ==> stats[n] in made
      {
        var e := entries[i];
        assert entries[..i + 1][..i] == entries[..i];
        if e.protocol !in providers {
          if e.modelName in providers {
            AliasStep(providers, stats, entries, AliasOwners(owners, entries[..i]), e);
            providers := providers[e.protocol := providers[e.modelName]];
            if e.protocol !in stats {
              stats := stats[e.protocol := stats[e.modelName]];
            }
          }
        }
      }
      assert entries[..|entries|] == entries;
    }

    method SetActive(name: string) returns (ok: bool)
      modifies this`activeName, this`activeProvider
      ensures ok <==> name in providers
      ensures ok ==> activeName == name && activeProvider == providers[name]
      ensures !ok ==> activeName == old(activeName) && activeProvider == old(activeProvider)
    {
      ok := name in providers;
      if ok { activeName, activeProvider := name, providers[name]; }
    }

    method RegisterAll(entries: seq<ModelEntry>)
      requires providers == map[] && stats == map[]
      modifies this`providers, this`stats
      ensures Registered(providers, stats, entries, Owners(entries))
      ensures forall n :: n in stats ==> fresh(stats[n]) && stats[n].failCount == 0
    {
      RegisterModels(entries);
      ghost var made := set n | n in stats :: stats[n];
      RegisterProtocols(entries, made);
    }

    /** A router over at least one creatable entry; the default provider is active,
        or some registered one when the default is unknown. */
    constructor (entries: seq<ModelEntry>, defaultName: string)
      requires exists i :: 0 <= i < |entries| && entries[i].provider.Some?
      ensures Valid() && log == []
      ensures Registered(providers, stats, entries, Owners(entries))
      ensures forall n :: n in stats ==> fresh(stats[n])
      ensures defaultName in providers ==> activeName == defaultName
    {
      providers, stats, log := map[], map[], [];
      activeName, activeProvider := "", 0;
      new;
      RegisterAll(entries);
      NewRecordsTell(stats);
      Activate(entries, defaultName);
    }

    method Activate(entries: seq<ModelEntry>, defaultName: string)
      requires exists i :: 0 <= i < |entries| && entries[i].provider.Some?
      requires providers.Keys == Owners(entries).Keys
      modifies this`activeName, this`activeProvider
      ensures activeName in providers && activeProvider == providers[activeName]
      ensures defaultName in providers ==> activeName == defaultName
    {
      var ok := SetActive(defaultName);
      if !ok {
        ghost var i :| 0 <= i < |entries| && entries[i].provider.Some?;
        CreatableIsRegistered(entries, i);
        assert entries[i].modelName in providers;
        var name :| name in providers;
        ok := SetActive(name);
      }
    }

    method RecordSuccess(name: string, duration: int, ghost now: int)
      requires Valid() && name in stats
      modifies this`log, stats[name]
      ensures Valid() && log == old(log) + [Event(name, true, now)]
      ensures var was := old(stats[name].latencies);
        stats[name].latencies == (if |was| < 20 then was else was[1..]) + [duration]
    {
      var s := stats[name];
      s.failCount := 0;
      s.latencies := s.latencies + [duration];
      if |s.latencies| > 20 {
        s.latencies := s.latencies[1..];
      }
      log := log + [Event(name, true, now)];
      forall n | n in stats ensures Tells(stats[n], log, Sharing(stats, n)) {
        assert old(Tells(stats[n], log, Sharing(stats, n)));
        HistorySnoc(old(log), Event(name, true, now), Sharing(stats, n));
      }
    }

    method RecordFailure(name: string, now: int)
      requires Valid() && name in stats
      modifies this`log, stats[name]
      ensures Valid() && log == old(log) + [Event(name, false, now)]
      ensures stats[name].latencies == old(stats[name].latencies)
    {
      var s := stats[name];
      s.failCount := s.failCount + 1;
      s.lastFailure := now;
      log := log + [Event(name, false, now)];
      forall n | n in stats ensures Tells(stats[n], log, Sharing(stats, n)) {
        assert old(Tells(stats[n], log, Sharing(stats, n)));
        HistorySnoc(old(log), Event(name, false, now), Sharing(stats, n));
      }
    }

    /** Health of a name, read off the record it shares. */
    method IsHealthy(name: string, now: int) returns (ok: bool)
      requires Valid() && name in stats
      ensures ok <==> HealthyBy(log, Sharing(stats, name), now)
    {
      var s := stats[name];
      ok := !(s.failCount > 5 && now - s.lastFailure < 5 * MINUTE);
    }

    /** The k-th provider call and the bookkeeping behind it. */
    method Ask(name: string, provider: ProviderId, model: string, start: int, k: nat,
               outcome: nat -> Result<Response, string>, clock: nat -> int) returns (a: Attempt)
      requires Valid() && name in stats
      modifies this`log, stats[name]
      ensures Valid() && a == Attempt(name, provider, model, outcome(k).Ok?)
      ensures log == old(log) + [Event(name, a.ok, clock(k + 1))]
    {
      a := Attempt(name, provider, model, outcome(k).Ok?);
      if a.ok {
        RecordSuccess(name, clock(k + 1) - start, clock(k + 1));
      } else {
        RecordFailure(name, clock(k + 1));
      }
    }

    function View(): Setup
      reads this
    {
      Setup(providers, stats, activeName, activeProvider)
    }

    /** One turn of the loop over the active provider's models. */
    method ConsiderModel(model: string, outcome: nat -> Result<Response, string>, clock: nat -> int,
                         attempts: seq<Attempt>, ghost base: seq<Event>) returns (next: seq<Attempt>)
      requires Valid() && log == base + Events(attempts, clock)
      requires StopsAtSuccess(attempts, outcome) && !LastSucceeded(attempts)
      modifies this`log, stats[activeName]
      ensures Valid() && log == base + Events(next, clock)
      ensures StopsAtSuccess(next, outcome) && |next| == |attempts| + 1 && attempts <= next
      ensures IsActiveAttempt(View(), next[|attempts|], model)
    {
      var a := Ask(activeName, activeProvider, model, clock(0), |attempts|, outcome, clock);
      LogSnoc(base, attempts, a, clock);
      StopsSnoc(attempts, a, outcome);
      next := attempts + [a];
    }

    method TryActive(model: string, outcome: nat -> Result<Response, string>, clock: nat -> int)
      returns (attempts: seq<Attempt>)
      requires Valid()
      modifies this`log, stats.Values
      ensures Valid() && log == old(log) + Events(attempts, clock)
      ensures StopsAtSuccess(attempts, outcome) && attempts != []
      ensures ActiveInOrder(View(), attempts, model)
    {
      attempts := [];
      ghost var base := log;
      var models := ActiveModels(View(), model);
      var i := 0;
      while i < |models|
        invariant Valid() && log == base + Events(attempts, clock) && models == ActiveModels(View(), model)
        invariant i == |attempts| <= |models| && StopsAtSuccess(attempts, outcome) && !LastSucceeded(attempts)
        invariant forall k :: 0 <= k < i ==> IsActiveAttempt(View(), attempts[k], models[k])
      {
        attempts := ConsiderModel(models[i], outcome, clock, attempts, base);
        i := i + 1;
        if LastSucceeded(attempts) { return; }
      }
    }

    /** One turn of the loop over the other names: skip it when unhealthy, else ask it. */
    method ConsiderAlternate(name: string, model: string, outcome: nat -> Result<Response, string>, clock: nat -> int,
                             attempts: seq<Attempt>, ghost base: seq<Event>, ghost from: nat, ghost todo: set<string>)
      returns (next: seq<Attempt>)
      requires Valid() && log == base + Events(attempts, clock)
      requires StopsAtSuccess(attempts, outcome) && !LastSucceeded(attempts)
      requires name in providers && name != activeName && name in todo
      requires from <= |attempts| && AlternatesInv(View(), base, attempts, from, model, clock, todo)
      modifies this`log, stats[name]
      ensures Valid() && log == base + Events(next, clock)
      ensures attempts <= next && StopsAtSuccess(next, outcome)
      ensures AlternatesInv(View(), base, next, from, model, clock, todo - {name})
    {
      ghost var u := View();
      next := attempts;
      var healthy := IsHealthy(name, clock(|attempts|));
      if !healthy {
        AlternateSkipped(u, base, attempts, from, model, clock, todo, name);
      } else {
        var a := Ask(name, providers[name], model, clock(|attempts|), |attempts|, outcome, clock);
        AlternateAsked(u, base, attempts, from, model, clock, todo, a);
        LogSnoc(base, attempts, a, clock);
        StopsSnoc(attempts, a, outcome);
        next := attempts + [a];
      }
    }

    method TryAlternates(model: string, outcome: nat -> Result<Response, string>, clock: nat -> int,
                         first: seq<Attempt>, ghost base: seq<Event>)
      returns (attempts: seq<Attempt>, ghost left: set<string>)
      requires Valid() && log == base + Events(first, clock)
      requires StopsAtSuccess(first, outcome) && !LastSucceeded(first)
      modifies this`log, stats.Values
      ensures Valid() && log == base + Events(attempts, clock)
      ensures first <= attempts && StopsAtSuccess(attempts, outcome)
      ensures AlternatesInv(View(), base, attempts, |first|, model, clock, left)
      ensures !LastSucceeded(attempts) ==> left == {}
    {
      attempts := first;
      var todo := providers.Keys - {activeName};
      NoAlternatesYet(View(), base, attempts, model, clock);
      left := todo;
      while todo != {} && !(attempts != [] && attempts[|attempts| - 1].ok)
        invariant Valid() && log == base + Events(attempts, clock)
        invariant first <= attempts && StopsAtSuccess(attempts, outcome)
        invariant todo <= providers.Keys - {activeName} && left == todo
        invariant AlternatesInv(View(), base, attempts, |first|, model, clock, todo)
        decreases todo
      {
        var name :| name in todo;
        attempts := ConsiderAlternate(name, model, outcome, clock, attempts, base, |first|, todo);
        todo := todo - {name};
        left := todo;
      }
    }

    /** The second phase, once every active model has failed. */
    method AlternatesAfter(first: seq<Attempt>, lastErr: string, model: string,
                           outcome: nat -> Result<Response, string>, clock: nat -> int, ghost base: seq<Event>)
      returns (r: Result<Response, string>, attempts: seq<Attempt>, ghost left: set<string>)
      requires Valid() && log == base + Events(first, clock)
      requires StopsAtSuccess(first, outcome) && !LastSucceeded(first) && first != []
      requires ActiveInOrder(View(), first, model) && outcome(|first| - 1) == Err(lastErr)
      modifies this`log, stats.Values
      ensures Valid() && log == base + Events(attempts, clock)
      ensures FallbackResult(View(), base, attempts, model, outcome, clock, left, r)
    {
      ghost var u := View();
      attempts, left := TryAlternates(model, outcome, clock, first, base);
      ThenAlternates(u, base, first, attempts, model, clock, left, !LastSucceeded(attempts));
      r := if LastSucceeded(attempts) then outcome(|attempts| - 1) else Err("all providers failed, last error: " + lastErr);
    }

    /** CompleteWithFallback succeeds exactly when one of the calls it makes does,
        and stops there. It asks the active provider for the requested model and
        then for each fallback model; after that each other name at most once, and
        only while healthy. When everything failed, every name it did not ask was
        unhealthy at its turn. */
    method CompleteWithFallback(model: string, outcome: nat -> Result<Response, string>, clock: nat -> int)
      returns (r: Result<Response, string>, attempts: seq<Attempt>, ghost left: set<string>)
      requires Valid()
      modifies this`log, stats.Values
      ensures Valid() && log == old(log) + Events(attempts, clock)
      ensures FallbackResult(View(), old(log), attempts, model, outcome, clock, left, r)
    {
      ghost var base := log;
      attempts := TryActive(model, outcome, clock);
      if LastSucceeded(attempts) {
        ActiveOnly(View(), base, attempts, model, outcome, clock);
        return outcome(|attempts| - 1), attempts, providers.Keys - {activeName};
      }
      var lastErr := outcome(|attempts| - 1).error;
      r, attempts, left := AlternatesAfter(attempts, lastErr, model, outcome, clock, base);
    }
  }

  /** NewRouter fails exactly when no entry yields a provider. */
  method NewRouter(entries: seq<ModelEntry>, defaultName: string) returns (r: Result<Router, string>)
    ensures r.Err? <==> forall i :: 0 <= i < |entries| ==> entries[i].provider.None?
    ensures r.Ok? ==>
      && fresh(r.value) && r.value.Valid() && r.value.log == []
      && Registered(r.value.providers, r.value.stats, entries, Owners(entries))
  {
    if i :| 0 <= i < |entries| && entries[i].provider.Some? {
      var router := new Router(entries, defaultName);
      return Ok(router);
    }
    return Err("no providers configured");
  }
}
