/** Searching skill registries: the stable in-place sort, the local registry's
    scored search, and the merge of answers that were each cut to a limit. */
module SkillSearch {
  import opened Wrappers
  import opened Strings
  import opened Sorting
  import ForkJoin

  datatype Found = Found(slug: string, summary: string, source: string)

  type SearchResult = Scored<Found>

  type Results = seq<SearchResult>

  // ----- the sort, in place -----

  lemma FrontSlices<T>(s: seq<T>, k: nat)
    requires k < |s|
    ensures s[..|s| - 1][..k] == s[..k] && s[..|s| - 1][k..] + [s[|s| - 1]] == s[k..]
  {}

  /** Insert puts x where everything before is no smaller and everything after is smaller. */
  lemma {:induction false} InsertAt(s: Results, x: SearchResult, k: nat)
    requires k <= |s| && (k > 0 ==> s[k - 1].score >= x.score)
    requires forall i :: k <= i < |s| ==> s[i].score < x.score
    ensures Insert(s, x) == s[..k] + [x] + s[k..]
  {
    if k < |s| {
      FrontSlices(s, k);
      InsertAt(s[..|s| - 1], x, k);
    }
  }

  /** The array while x is being placed: a hole at position k, larger scores
      before it, smaller ones behind it, the unsorted rest last. */
  function WithHole(s: Results, k: nat, hole: SearchResult, rest: Results): Results
    requires k <= |s|
  {
    s[..k] + [hole] + s[k..] + rest
  }

  lemma ShiftHole(s: Results, k: nat, hole: SearchResult, rest: Results)
    requires 0 < k <= |s|
    ensures WithHole(s, k, hole, rest)[k - 1] == s[k - 1]
    ensures WithHole(s, k, hole, rest)[k := s[k - 1]] == WithHole(s, k - 1, s[k - 1], rest)
  {}

  lemma FillHole(s: Results, k: nat, hole: SearchResult, rest: Results, x: SearchResult)
    requires k <= |s|
    ensures WithHole(s, k, hole, rest)[k := x] == s[..k] + [x] + s[k..] + rest
  {}

  /** The hole moves left past a smaller score. */
  method MoveHole(a: array<SearchResult>, j: nat, ghost s: Results, ghost hole: SearchResult, ghost rest: Results)
    requires j < |s| && j + 1 < a.Length && a[..] == WithHole(s, j + 1, hole, rest)
    modifies a
    ensures a[..] == WithHole(s, j, s[j], rest)
  {
    ShiftHole(s, j + 1, hole, rest);
    assert a[j] == a[..][j];
    a[j + 1] := a[j];
  }

  /** The inner loop: smaller scores move right until the hole is where x belongs. */
  method MakeRoom(a: array<SearchResult>, i: nat, key: SearchResult) returns (j: int, ghost hole: SearchResult)
    requires i < a.Length && key == a[i]
    modifies a
    ensures -1 <= j < i && a[..] == WithHole(old(a[..i]), j + 1, hole, old(a[i + 1..]))
    ensures forall k :: j < k < i ==> old(a[..i])[k].score < key.score
    ensures j >= 0 ==> old(a[..i])[j].score >= key.score
  {
    ghost var s, rest := a[..i], a[i + 1..];
    hole := key;
    j := i - 1;
    while j >= 0 && a[j].score < key.score
      invariant -1 <= j < i && a[..] == WithHole(s, j + 1, hole, rest)
      invariant forall k :: j < k < i ==> s[k].score < key.score
    {
      assert a[j] == a[..][j] == s[j];
      MoveHole(a, j, s, hole, rest);
      hole := s[j];
      j := j - 1;
    }
    if j >= 0 { assert a[j] == a[..][j] == s[j]; }
  }

  /** One pass of the outer loop. */
  method InsertInto(a: array<SearchResult>, i: nat)
    requires i < a.Length
    modifies a
    ensures a[..] == Insert(old(a[..i]), old(a[i])) + old(a[i + 1..])
  {
    ghost var s, rest := a[..i], a[i + 1..];
    var key := a[i];
    var j, hole := MakeRoom(a, i, key);
    FillHole(s, j + 1, hole, rest, key);
    InsertAt(s, key, j + 1);
    a[j + 1] := key;
  }

  lemma SplitAt<T>(a: seq<T>, b: seq<T>)
    ensures (a + b)[..|a|] == a && (a + b)[|a|..] == b
    ensures b != [] ==> (a + b)[|a|] == b[0] && (a + b)[|a| + 1..] == b[1..]
  {}

  lemma OuterStep(full: Results, s: Results, i: nat)
    requires i < |s| && full == SortDesc(s[..i]) + s[i..]
    ensures |full| == |s| && full[..i] == SortDesc(s[..i]) && full[i] == s[i] && full[i + 1..] == s[i + 1..]
    ensures SortDesc(s[..i + 1]) == Insert(full[..i], full[i])
  {
    SortDescPermutes(s[..i]);
    SplitAt(SortDesc(s[..i]), s[i..]);
    assert s[i..][1..] == s[i + 1..];
    assert s[..i + 1][..i] == s[..i];
  }

  method SortByScoreDesc(a: array<SearchResult>)
    modifies a
    ensures a[..] == SortDesc(old(a[..]))
  {
    ghost var s := a[..];
    if a.Length == 0 { return; }
    assert s[..1] == [s[0]] && s[..1][..0] == [];
    var i := 1;
    while i < a.Length
      invariant 1 <= i <= a.Length
      invariant a[..] == SortDesc(s[..i]) + s[i..]
    {
      OuterStep(a[..], s, i);
      assert a[..i] == a[..][..i] && a[i] == a[..][i] && a[i + 1..] == a[..][i + 1..];
      InsertInto(a, i);
      i := i + 1;
    }
    assert s[..i] == s;
  }

  // ----- cutting to the limit -----

  /** Only a positive limit cuts. */
  function Cut(limit: int, s: Results): Results {
    if limit > 0 && |s| > limit then s[..limit] else s
  }

  function Capped(limit: int, n: nat): nat {
    if limit > 0 && n > limit then limit else n
  }

  lemma {:induction false} CountBound(s: Results, v: real)
    ensures CountAtLeast(s, v) <= |s|
  {
    if s != [] { CountBound(s[..|s| - 1], v); }
  }

  lemma {:induction false} CountAll(s: Results, v: real)
    requires forall i :: 0 <= i < |s| ==> s[i].score >= v
    ensures CountAtLeast(s, v) == |s|
  {
    if s != [] { CountAll(s[..|s| - 1], v); }
  }

  lemma {:induction false} CountConcat(a: Results, b: Results, v: real)
    ensures CountAtLeast(a + b, v) == CountAtLeast(a, v) + CountAtLeast(b, v)
  {
    if b == [] {
      assert a + b == a;
    } else {
      assert (a + b)[..|a + b| - 1] == a + b[..|b| - 1];
      CountConcat(a, b[..|b| - 1], v);
    }
  }

  /** In descending order the results scoring at least v come first. */
  lemma {:induction false} CountIsPrefix(s: Results, v: real, i: nat)
    requires IsDesc(s) && i < |s|
    ensures s[i].score >= v <==> CountAtLeast(s, v) > i
  {
    var n := |s| - 1;
    if i < n {
      CountIsPrefix(s[..n], v, i);
      if s[n].score >= v { assert s[i].score >= s[n].score; }
    } else if s[n].score >= v {
      forall k | 0 <= k < |s| ensures s[k].score >= v {
        assert k < n ==> s[k].score >= s[n].score;
      }
      CountAll(s, v);
    } else {
      CountBound(s[..n], v);
    }
  }

  lemma CutCount(limit: int, s: Results, v: real)
    requires IsDesc(s)
    ensures CountAtLeast(Cut(limit, s), v) == Capped(limit, CountAtLeast(s, v))
  {
    CountBound(s, v);
    if limit > 0 && |s| > limit {
      var t := s[..limit];
      CountBound(t, v);
      assert s == t + s[limit..];
      CountConcat(t, s[limit..], v);
      CountIsPrefix(s, v, limit - 1);
      CountIsPrefix(t, v, limit - 1);
      if CountAtLeast(t, v) < limit {
        NoneBelow(s, v, limit);
      }
    }
  }

  lemma NoneBelow(s: Results, v: real, k: nat)
    requires IsDesc(s) && 0 < k <= |s| && s[k - 1].score < v
    ensures CountAtLeast(s[k..], v) == 0
  {
    var t := s[k..];
    forall i | 0 <= i < |t| ensures t[i].score < v {
      assert s[k - 1].score >= s[k + i].score;
    }
    CountNone(t, v);
  }

  lemma {:induction false} CountNone(s: Results, v: real)
    requires forall i :: 0 <= i < |s| ==> s[i].score < v
    ensures CountAtLeast(s, v) == 0
  {
    if s != [] { CountNone(s[..|s| - 1], v); }
  }

  function Scores(s: Results): seq<real> {
    seq(|s|, i requires 0 <= i < |s| => s[i].score)
  }

  /** Descending results are determined, as far as scores go, by their counts. */
  lemma CountsDetermineScores(a: Results, b: Results)
    requires IsDesc(a) && IsDesc(b) && forall v :: CountAtLeast(a, v) == CountAtLeast(b, v)
    ensures Scores(a) == Scores(b)
  {
    CountsBoundLength(a, b);
    CountsBoundLength(b, a);
    forall i | 0 <= i < |a| ensures a[i].score == b[i].score {
      CountIsPrefix(a, a[i].score, i);
      CountIsPrefix(b, a[i].score, i);
      CountIsPrefix(a, b[i].score, i);
      CountIsPrefix(b, b[i].score, i);
    }
  }

  lemma CountsBoundLength(a: Results, b: Results)
    requires IsDesc(b) && forall v :: CountAtLeast(a, v) == CountAtLeast(b, v)
    ensures |b| <= |a|
  {
    if b != [] {
      var n := |b| - 1;
      CountIsPrefix(b, b[n].score, n);
      CountBound(a, b[n].score);
    }
  }

  // ----- the local registry -----

  datatype Skill = Skill(name: string, description: string, source: string)

  function MatchScore(skill: Skill, query: string): real {
    (if Contains(Lower(skill.name), Lower(query)) then 10.0 else 0.0)
    + (if Contains(Lower(skill.description), Lower(query)) then 5.0 else 0.0)
  }

  /** A skill matches when its name or its description spells the query in any case.
      Matches by both rank above those by name alone, these above those by
      description alone. */
  lemma MatchScoreMeans(skill: Skill, query: string)
    ensures MatchScore(skill, query) ==
      if Spells(skill.name, query) then (if Spells(skill.description, query) then 15.0 else 10.0)
      else if Spells(skill.description, query) then 5.0 else 0.0
  {
    LowerContains(skill.name, query);
    LowerContains(skill.description, query);
  }

  function ToResult(skill: Skill, query: string): SearchResult {
    Scored(MatchScore(skill, query), Found(skill.name, skill.description, skill.source))
  }

  /** `names` lists every matching skill once, in some order. */
  ghost predicate ListsMatches(skills: map<string, Skill>, query: string, names: seq<string>) {
    && (forall i, j :: 0 <= i < j < |names| ==> names[i] != names[j])
    && (forall n :: n in names <==> n in skills && MatchScore(skills[n], query) > 0.0)
  }

  function Listing(skills: map<string, Skill>, query: string, names: seq<string>): Results
    requires forall n :: n in names ==> n in skills
  {
    seq(|names|, i requires 0 <= i < |names| => ToResult(skills[names[i]], query))
  }

  /** Some listing of the matches, sorted and cut. */
  ghost predicate BestMatches(skills: map<string, Skill>, query: string, limit: int, results: Results) {
    exists names :: ListsMatches(skills, query, names) && results == Cut(limit, SortDesc(Listing(skills, query, names)))
  }

  /** A result speaks of this skill: its score and what is shown of it. */
  predicate Shows(r: SearchResult, skill: Skill, query: string) {
    && r.score == MatchScore(skill, query)
    && r.item.slug == skill.name && r.item.summary == skill.description && r.item.source == skill.source
  }

  predicate Matching(skills: map<string, Skill>, query: string, n: string) {
    n in skills && (Spells(skills[n].name, query) || Spells(skills[n].description, query))
  }

  lemma ListedExactly(skills: map<string, Skill>, query: string, names: seq<string>)
    requires ListsMatches(skills, query, names)
    ensures forall n :: n in names <==> Matching(skills, query, n)
    ensures |names| == |set n | n in skills && Matching(skills, query, n)|
  {
    forall n ensures n in names <==> Matching(skills, query, n) {
      if n in skills { MatchScoreMeans(skills[n], query); }
    }
    NamesAsSet(names);
    assert (set n | n in names) == set n | n in skills && Matching(skills, query, n);
  }

  lemma {:induction false} NamesAsSet(names: seq<string>)
    requires forall i, j :: 0 <= i < j < |names| ==> names[i] != names[j]
    ensures |set n | n in names| == |names|
  {
    if names != [] {
      var m := |names| - 1;
      NamesAsSet(names[..m]);
      assert names == names[..m] + [names[m]];
      assert (set n | n in names) == (set n | n in names[..m]) + {names[m]};
    }
  }

  lemma SortedShows(listing: Results, results: Results, limit: int)
    requires results == Cut(limit, SortDesc(listing))
    ensures IsDesc(results) && |results| == if 0 < limit < |listing| then limit else |listing|
    ensures forall r :: r in results ==> r in listing
    ensures forall r, other :: r in results && other in listing && other !in results ==> other.score <= r.score
  {
    SortDescPermutes(listing);
    FrontShows(listing, SortDesc(listing), |results|);
  }

  lemma FrontShows(listing: Results, full: Results, n: nat)
    requires multiset(full) == multiset(listing) && IsDesc(full) && n <= |full|
    ensures IsDesc(full[..n])
    ensures forall r :: r in full[..n] ==> r in listing
    ensures forall r, other :: r in full[..n] && other in listing && other !in full[..n] ==> other.score <= r.score
  {
    forall r | r in full[..n] ensures r in listing { assert r in multiset(full); }
    forall r, other | r in full[..n] && other in listing && other !in full[..n] ensures other.score <= r.score {
      assert other in multiset(listing);
      assert other in full;
      var i :| 0 <= i < n && full[i] == r;
      var j :| 0 <= j < |full| && full[j] == other;
      if j < n { assert full[..n][j] == other; }
    }
  }

  /** What a local search answers: the smaller of limit and the number of matching
      skills, best first, each showing a matching skill under its name; a matching
      skill that is not shown scores no more than any that is. */
  lemma BestMatchesMeans(skills: map<string, Skill>, query: string, limit: int, results: Results)
    requires BestMatches(skills, query, limit, results)
    ensures IsDesc(results)
    ensures var n := |set n | n in skills && Matching(skills, query, n)|;
      |results| == if 0 < limit < n then limit else n
    ensures forall r :: r in results ==> exists n :: Matching(skills, query, n) && Shows(r, skills[n], query)
    ensures forall n, r :: Matching(skills, query, n) && r in results && ToResult(skills[n], query) !in results ==>
      MatchScore(skills[n], query) <= r.score
  {
    var names :| ListsMatches(skills, query, names) && results == Cut(limit, SortDesc(Listing(skills, query, names)));
    var listing := Listing(skills, query, names);
    ListedExactly(skills, query, names);
    SortedShows(listing, results, limit);
    forall r | r in results ensures exists n :: Matching(skills, query, n) && Shows(r, skills[n], query) {
      assert r in listing;
      var i :| 0 <= i < |listing| && listing[i] == r;
      assert names[i] in names;
      assert Matching(skills, query, names[i]) && Shows(r, skills[names[i]], query);
    }
    forall n, r | Matching(skills, query, n) && r in results && ToResult(skills[n], query) !in results
      ensures MatchScore(skills[n], query) <= r.score
    {
      assert n in names;
      var i :| 0 <= i < |names| && names[i] == n;
      assert listing[i] == ToResult(skills[n], query);
      assert ToResult(skills[n], query) in listing;
    }
  }

  /** The map as the constructor's loop builds it. */
  function ByName(infos: seq<Skill>): map<string, Skill> {
    if infos == [] then map[]
    else ByName(infos[..|infos| - 1])[infos[|infos| - 1].name := infos[|infos| - 1]]
  }

  /** Every name is registered, and of several skills with one name the last is kept. */
  lemma {:induction false} LastOfNameIsKept(infos: seq<Skill>, i: nat)
    requires i < |infos| && forall j :: i < j < |infos| ==> infos[j].name != infos[i].name
    ensures infos[i].name in ByName(infos) && ByName(infos)[infos[i].name] == infos[i]
  {
    if i < |infos| - 1 { LastOfNameIsKept(infos[..|infos| - 1], i); }
  }

  class MemoryRegistry {
    var skills: map<string, Skill>

    constructor (infos: seq<Skill>)
      ensures skills == ByName(infos)
    {
      skills := map[];
      new;
      for i := 0 to |infos|
        invariant skills == ByName(infos[..i])
      {
        assert infos[..i + 1][..i] == infos[..i];
        skills := skills[infos[i].name := infos[i]];
      }
      assert infos[..|infos|] == infos;
    }

    /** The best `limit` matches, best first (all of them for limit <= 0). */
    method Search(query: string, limit: int) returns (results: Results)
      ensures BestMatches(skills, query, limit, results)
    {
      var found: Results := [];
      ghost var names := [];
      var todo := skills.Keys;
      while todo != {}
        invariant todo <= skills.Keys
        invariant forall n :: n in names ==> n in skills && n !in todo && MatchScore(skills[n], query) > 0.0
        invariant forall n :: n in skills && n !in todo && MatchScore(skills[n], query) > 0.0 ==> n in names
        invariant forall i, j :: 0 <= i < j < |names| ==> names[i] != names[j]
        invariant found == Listing(skills, query, names)
        decreases todo
      {
        var n :| n in todo;
        todo := todo - {n};
        var r := ToResult(skills[n], query);
        if r.score > 0.0 {
          found := found + [r];
          names := names + [n];
        }
      }
      results := SortAndCut(found, limit);
    }
  }

  method SortAndCut(found: Results, limit: int) returns (results: Results)
    ensures results == Cut(limit, SortDesc(found))
  {
    var a := new SearchResult[|found|](i requires 0 <= i < |found| => found[i]);
    assert a[..] == found;
    SortByScoreDesc(a);
    results := a[..];
    if limit > 0 && |results| > limit {
      results := results[..limit];
    }
  }

  // ----- merging every registry's answer -----

  type Answer = ForkJoin.Msg<Results>

  /** The answers of the registries that answered, in order of arrival. */
  function Merged(msgs: seq<Answer>): Results {
    if msgs == [] then []
    else
      var m := msgs[|msgs| - 1];
      Merged(msgs[..|msgs| - 1]) + if m.result.Ok? then m.result.value else []
  }

  /** Merging takes every answer whole and nothing else. */
  lemma {:induction false} MergedAddsUp(a: seq<Answer>, b: seq<Answer>)
    ensures Merged(a + b) == Merged(a) + Merged(b)
  {
    if b == [] {
      assert a + b == a;
    } else {
      var n := |b| - 1;
      assert (a + b)[..|a + b| - 1] == a + b[..n];
      MergedAddsUp(a, b[..n]);
      assert Merged(a + b) == Merged(a + b[..n]) + if b[n].result.Ok? then b[n].result.value else [];
    }
  }

  lemma MergedOfOne(m: Answer)
    ensures Merged([m]) == if m.result.Ok? then m.result.value else []
  {
    assert [m][..0] == [];
    assert Merged([m]) == Merged([m][..0]) + if m.result.Ok? then m.result.value else [];
  }

  predicate SomeAnswered(msgs: seq<Answer>) {
    exists k :: 0 <= k < |msgs| && msgs[k].result.Ok?
  }

  /** What SearchAll does with the messages its channel delivered. */
  method MergeAnswers(msgs: seq<Answer>, limit: int) returns (r: Result<Results, string>)
    ensures SomeAnswered(msgs) || msgs == [] ==> r == Ok(Cut(limit, SortDesc(Merged(msgs))))
    ensures !SomeAnswered(msgs) && msgs != [] ==> r == Err(msgs[|msgs| - 1].result.error)
  {
    var merged: Results := [];
    var lastErr: Option<string> := None;
    var anySucceeded := false;
    for i := 0 to |msgs|
      invariant merged == Merged(msgs[..i])
      invariant anySucceeded <==> exists k :: 0 <= k < i && msgs[k].result.Ok?
      invariant i == 0 ==> lastErr.None?
      invariant lastErr.None? ==> forall k :: 0 <= k < i ==> msgs[k].result.Ok?
      invariant i > 0 && !anySucceeded ==> msgs[i - 1].result.Err? && lastErr == Some(msgs[i - 1].result.error)
    {
      assert msgs[..i + 1][..i] == msgs[..i];
      if msgs[i].result.Err? {
        lastErr := Some(msgs[i].result.error);
        continue;
      }
      anySucceeded := true;
      merged := merged + msgs[i].result.value;
    }
    assert msgs[..|msgs|] == msgs;
    if !anySucceeded && lastErr.Some? { return Err(lastErr.value); }
    var results := SortAndCut(merged, limit);
    r := Ok(results);
  }

  /** Every answer is a full match list sorted and cut, as the local registry's is. */
  ghost predicate AnswersCut(msgs: seq<Answer>, full: nat -> Results, limit: int) {
    forall k :: 0 <= k < |msgs| && msgs[k].result.Ok? ==>
      msgs[k].result.value == Cut(limit, SortDesc(full(msgs[k].sender)))
  }

  /** The full match lists behind the answers that arrived. */
  function Union(msgs: seq<Answer>, full: nat -> Results): Results {
    if msgs == [] then []
    else
      var m := msgs[|msgs| - 1];
      Union(msgs[..|msgs| - 1], full) + if m.result.Ok? then full(m.sender) else []
  }

  lemma {:induction false} MergedCount(msgs: seq<Answer>, full: nat -> Results, limit: int, v: real)
    requires AnswersCut(msgs, full, limit)
    ensures Capped(limit, CountAtLeast(Merged(msgs), v)) == Capped(limit, CountAtLeast(Union(msgs, full), v))
  {
    if msgs != [] {
      var n := |msgs| - 1;
      var m := msgs[n];
      assert AnswersCut(msgs[..n], full, limit);
      MergedCount(msgs[..n], full, limit, v);
      if m.result.Ok? {
        CountConcat(Merged(msgs[..n]), m.result.value, v);
        CountConcat(Union(msgs[..n], full), full(m.sender), v);
        SortDescFacts(full(m.sender));
        CutCount(limit, SortDesc(full(m.sender)), v);
      } else {
        assert Merged(msgs) == Merged(msgs[..n]);
        assert Union(msgs, full) == Union(msgs[..n], full);
      }
    }
  }

  lemma CutKeepsOrder(limit: int, s: Results)
    requires IsDesc(s)
    ensures IsDesc(Cut(limit, s))
  {}

  lemma SortedCutCount(limit: int, s: Results, v: real)
    ensures IsDesc(Cut(limit, SortDesc(s)))
    ensures CountAtLeast(Cut(limit, SortDesc(s)), v) == Capped(limit, CountAtLeast(s, v))
  {
    SortDescFacts(s);
    CutKeepsOrder(limit, SortDesc(s));
    CutCount(limit, SortDesc(s), v);
  }

  /** Cutting every registry's answer first loses nothing: the merged answer has
      the scores of the best `limit` of all full match lists together, whichever
      registries answered and in whatever order. */
  lemma EarlyCutIsHarmless(msgs: seq<Answer>, full: nat -> Results, limit: int)
    requires AnswersCut(msgs, full, limit)
    ensures Scores(Cut(limit, SortDesc(Merged(msgs)))) == Scores(Cut(limit, SortDesc(Union(msgs, full))))
  {
    var a, b := Cut(limit, SortDesc(Merged(msgs))), Cut(limit, SortDesc(Union(msgs, full)));
    forall v ensures CountAtLeast(a, v) == CountAtLeast(b, v) {
      SortedCutCount(limit, Merged(msgs), v);
      SortedCutCount(limit, Union(msgs, full), v);
      MergedCount(msgs, full, limit, v);
    }
    SortedCutCount(limit, Merged(msgs), 0.0);
    SortedCutCount(limit, Union(msgs, full), 0.0);
    CountsDetermineScores(a, b);
  }

  function All(full: nat -> Results, n: nat): Results {
    if n == 0 then [] else All(full, n - 1) + full(n - 1)
  }

  lemma UnionSnoc(msgs: seq<Answer>, m: Answer, full: nat -> Results, v: real)
    ensures CountAtLeast(Union(msgs + [m], full), v)
            == CountAtLeast(Union(msgs, full), v) + if m.result.Ok? then CountAtLeast(full(m.sender), v) else 0
  {
    assert (msgs + [m])[..|msgs|] == msgs;
    CountConcat(Union(msgs, full), if m.result.Ok? then full(m.sender) else [], v);
  }

  lemma WithoutSnoc<T>(front: seq<T>, last: T, k: nat)
    requires k < |front|
    ensures (front + [last])[..k] + (front + [last])[k + 1..] == front[..k] + front[k + 1..] + [last]
  {}

  lemma {:induction false} UnionWithout(msgs: seq<Answer>, full: nat -> Results, k: nat, v: real)
    requires k < |msgs| && msgs[k].result.Ok?
    ensures CountAtLeast(Union(msgs, full), v)
            == CountAtLeast(Union(msgs[..k] + msgs[k + 1..], full), v) + CountAtLeast(full(msgs[k].sender), v)
  {
    var n := |msgs| - 1;
    var front, last := msgs[..n], msgs[n];
    assert msgs == front + [last];
    UnionSnoc(front, last, full, v);
    if k == n {
      assert msgs[..k] + msgs[k + 1..] == front;
    } else {
      UnionWithout(front, full, k, v);
      WithoutSnoc(front, last, k);
      UnionSnoc(front[..k] + front[k + 1..], last, full, v);
    }
  }

  lemma TakeOutLast(msgs: seq<Answer>, full: nat -> Results, n: nat, v: real) returns (k: nat)
    requires n > 0 && ForkJoin.OnePerGoroutine(n, msgs) && forall m :: m in msgs ==> m.result.Ok?
    ensures k < |msgs|
    ensures var rest := msgs[..k] + msgs[k + 1..];
      && ForkJoin.OnePerGoroutine(n - 1, rest) && (forall m :: m in rest ==> m.result.Ok?)
      && CountAtLeast(Union(msgs, full), v) == CountAtLeast(Union(rest, full), v) + CountAtLeast(full(n - 1), v)
  {
    assert ForkJoin.SentBy(msgs, n - 1);
    k :| 0 <= k < |msgs| && msgs[k].sender == n - 1;
    RemoveSender(msgs, n, k);
    UnionWithout(msgs, full, k, v);
  }

  lemma {:induction false} UnionOfAll(msgs: seq<Answer>, full: nat -> Results, n: nat, v: real)
    requires ForkJoin.OnePerGoroutine(n, msgs) && forall m :: m in msgs ==> m.result.Ok?
    ensures CountAtLeast(Union(msgs, full), v) == CountAtLeast(All(full, n), v)
    decreases n
  {
    if n > 0 {
      var k := TakeOutLast(msgs, full, n, v);
      UnionOfAll(msgs[..k] + msgs[k + 1..], full, n - 1, v);
      CountConcat(All(full, n - 1), full(n - 1), v);
    }
  }

  lemma RemoveSender(msgs: seq<Answer>, n: nat, k: nat)
    requires n > 0 && ForkJoin.OnePerGoroutine(n, msgs) && k < |msgs| && msgs[k].sender == n - 1
    ensures ForkJoin.OnePerGoroutine(n - 1, msgs[..k] + msgs[k + 1..])
    ensures forall m :: m in msgs[..k] + msgs[k + 1..] ==> m in msgs
  {
    var rest := msgs[..k] + msgs[k + 1..];
    forall j | 0 <= j < |rest| ensures rest[j] == msgs[if j < k then j else j + 1] {}
    forall w | 0 <= w < n - 1 ensures ForkJoin.SentBy(rest, w) {
      assert ForkJoin.SentBy(msgs, w);
      var j :| 0 <= j < |msgs| && msgs[j].sender == w;
      assert rest[if j < k then j else j - 1].sender == w;
    }
  }

  /** The whole search, over every interleaving of its goroutines: when every
      registry answered, the scores returned are those of the best `limit` of all
      registries' full match lists. */
  lemma SearchAllIsTop(c: ForkJoin.Config, outcome: nat -> Result<Results, string>, acts: seq<ForkJoin.Action>,
                       full: nat -> Results, limit: int)
    requires !c.eager && ForkJoin.After(c, outcome, acts).Some? && ForkJoin.After(c, outcome, acts).value.returned
    requires forall w: nat :: w < c.n ==> outcome(w) == Ok(Cut(limit, SortDesc(full(w))))
    requires var msgs := ForkJoin.After(c, outcome, acts).value.received;
      forall k :: 0 <= k < |msgs| ==> msgs[k].result.Ok?
    ensures var msgs := ForkJoin.After(c, outcome, acts).value.received;
      Scores(Cut(limit, SortDesc(Merged(msgs)))) == Scores(Cut(limit, SortDesc(All(full, c.n))))
  {
    ForkJoin.NothingIsLost(c, outcome, acts);
    var msgs := ForkJoin.After(c, outcome, acts).value.received;
    EarlyCutIsHarmless(msgs, full, limit);
    var a, b := Cut(limit, SortDesc(Union(msgs, full))), Cut(limit, SortDesc(All(full, c.n)));
    forall v ensures CountAtLeast(a, v) == CountAtLeast(b, v) {
      UnionOfAll(msgs, full, c.n, v);
      SortedCutCount(limit, Union(msgs, full), v);
      SortedCutCount(limit, All(full, c.n), v);
    }
    SortedCutCount(limit, Union(msgs, full), 0.0);
    SortedCutCount(limit, All(full, c.n), 0.0);
    CountsDetermineScores(a, b);
  }
}
