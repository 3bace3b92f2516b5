/** Stripping markdown fences from model output. Three copies look for the last
    line that is a lone fence; the fourth always drops the last line. */
module CodeFences {
  import opened Strings

  /** Unicode white space, as strings.TrimSpace sees it. */
  predicate IsSpace(c: char) {
    || c == ' ' || '\U{0009}' <= c <= '\U{000d}' || c == '\U{0085}' || c == '\U{00a0}' || c == '\U{1680}'
    || '\U{2000}' <= c <= '\U{200a}' || c == '\U{2028}' || c == '\U{2029}' || c == '\U{202f}'
    || c == '\U{205f}' || c == '\U{3000}'
  }

  function TrimLeft(s: string): string {
    if s != [] && IsSpace(s[0]) then TrimLeft(s[1..]) else s
  }

  function TrimRight(s: string): string {
    if s != [] && IsSpace(s[|s| - 1]) then TrimRight(s[..|s| - 1]) else s
  }

  function Trim(s: string): string {
    TrimRight(TrimLeft(s))
  }

  // ----- what trimming means -----

  /** The code points of Unicode's White_Space property. */
  const SPACES: set<int> := {9, 10, 11, 12, 13, 32, 133, 160, 5760, 8192, 8193, 8194, 8195, 8196, 8197, 8198, 8199,
                             8200, 8201, 8202, 8232, 8233, 8239, 8287, 12288}

  lemma SpaceCodes(c: char)
    ensures IsSpace(c) <==> c as int in SPACES
  {}

  predicate Blank(s: string) {
    forall k :: 0 <= k < |s| ==> IsSpace(s[k])
  }

  lemma {:induction false} TrimLeftMeans(s: string) returns (i: nat)
    ensures i <= |s| && TrimLeft(s) == s[i..] && Blank(s[..i]) && (i < |s| ==> !IsSpace(s[i]))
  {
    i := 0;
    if s != [] && IsSpace(s[0]) {
      var rest := TrimLeftMeans(s[1..]);
      i := rest + 1;
      forall k | 0 <= k < i ensures IsSpace(s[..i][k]) {
        if k > 0 { assert s[1..][..rest][k - 1] == s[k]; }
      }
    }
  }

  lemma {:induction false} TrimRightMeans(s: string) returns (j: nat)
    ensures j <= |s| && TrimRight(s) == s[..j] && Blank(s[j..]) && (j > 0 ==> !IsSpace(s[j - 1]))
  {
    j := |s|;
    if s != [] && IsSpace(s[|s| - 1]) {
      j := TrimRightMeans(s[..|s| - 1]);
      forall k | 0 <= k < |s| - j ensures IsSpace(s[j..][k]) {
        if k < |s| - 1 - j { assert s[..|s| - 1][j..][k] == s[j..][k]; }
      }
    }
  }

  /** A trimmed text is what lies between the white space at both ends. */
  lemma TrimMeans(s: string) returns (i: nat, j: nat)
    ensures i <= j <= |s| && Trim(s) == s[i..j] && Blank(s[..i]) && Blank(s[j..])
    ensures i < j ==> !IsSpace(s[i]) && !IsSpace(s[j - 1])
  {
    i := TrimLeftMeans(s);
    var left := s[i..];
    var n := TrimRightMeans(left);
    j := i + n;
    assert left[n..] == s[j..];
    assert left[..n] == s[i..j];
  }

  lemma TrimTwice(s: string)
    ensures Trim(Trim(s)) == Trim(s)
  {
    var i, j := TrimMeans(s);
    if i < j { TrimFixed(Trim(s)); }
  }

  const FENCE := "```"

  predicate IsLoneFence(line: string) {
    Trim(line) == FENCE
  }

  /** The last position among 1..i that holds a lone fence, or the last of all when
      there is none. */
  function LastHit<T>(lines: seq<T>, lone: T -> bool, i: nat): (e: nat)
    requires 2 <= |lines| && i < |lines|
    ensures 1 <= e < |lines|
  {
    if i == 0 then |lines| - 1
    else if lone(lines[i]) then i
    else LastHit(lines, lone, i - 1)
  }

  function EndIndex(lines: seq<string>): nat
    requires 2 <= |lines|
  {
    LastHit(lines, IsLoneFence, |lines| - 1)
  }

  predicate SomeHit<T>(lines: seq<T>, lone: T -> bool) {
    exists k :: 1 <= k < |lines| && lone(lines[k])
  }

  lemma {:induction false} LastHitFacts<T>(lines: seq<T>, lone: T -> bool, i: nat)
    requires 2 <= |lines| && i < |lines|
    ensures var e := LastHit(lines, lone, i);
      && (forall k :: e < k <= i ==> !lone(lines[k]))
      && ((e <= i && lone(lines[e])) || (e == |lines| - 1 && forall k :: 1 <= k <= i ==> !lone(lines[k])))
  {
    if i > 0 && !lone(lines[i]) { LastHitFacts(lines, lone, i - 1); }
  }

  /** The last hit of all lines. */
  lemma EndFacts<T>(lines: seq<T>, lone: T -> bool)
    requires 2 <= |lines|
    ensures var e := LastHit(lines, lone, |lines| - 1);
      && (forall k :: e < k < |lines| ==> !lone(lines[k]))
      && (lone(lines[e]) <==> SomeHit(lines, lone))
      && (!SomeHit(lines, lone) ==> e == |lines| - 1)
      && (e == |lines| - 1 <==> lone(lines[|lines| - 1]) || !SomeHit(lines, lone))
  {
    LastHitFacts(lines, lone, |lines| - 1);
  }

  predicate Fenced(s: string) {
    FENCE <= s && 2 <= |Split(s, '\n')|
  }

  /** The copies in the code generator, the extractor and the browser agent. */
  function StripToFence(response: string): string {
    var r := Trim(response);
    if !Fenced(r) then Trim(r)
    else
      var lines := Split(r, '\n');
      Trim(Join(lines[1..EndIndex(lines)], '\n'))
  }

  /** The copy in the tool designer. */
  function StripEnds(response: string): string {
    var r := Trim(response);
    if !Fenced(r) then Trim(r)
    else
      var lines := Split(r, '\n');
      Trim(Join(lines[1..|lines| - 1], '\n'))
  }

  /** The backwards scan for the closing fence. */
  method FindEnd(lines: seq<string>) returns (endIdx: nat)
    requires |lines| >= 2
    ensures endIdx == EndIndex(lines)
  {
    endIdx := |lines| - 1;
    var i := |lines| - 1;
    while i > 0
      invariant 0 <= i < |lines|
      invariant endIdx == |lines| - 1 && EndIndex(lines) == LastHit(lines, IsLoneFence, i)
    {
      if Trim(lines[i]) == FENCE {
        endIdx := i;
        break;
      }
      i := i - 1;
    }
  }

  method CleanSourceResponse(input: string) returns (response: string)
    ensures response == StripToFence(input)
  {
    response := Trim(input);
    if FENCE <= response {
      var lines := Split(response, '\n');
      if |lines| >= 2 {
        var endIdx := FindEnd(lines);
        response := Join(lines[1..endIdx], '\n');
      }
    }
    response := Trim(response);
  }

  method StripToolSpec(input: string) returns (response: string)
    ensures response == StripEnds(input)
  {
    response := Trim(input);
    if FENCE <= response {
      var lines := Split(response, '\n');
      if |lines| >= 2 {
        response := Join(lines[1..|lines| - 1], '\n');
      }
    }
    response := Trim(response);
  }

  // ----- fenced texts come back as their bodies -----

  lemma TrimFixed(s: string)
    requires s != [] && !IsSpace(s[0]) && !IsSpace(s[|s| - 1])
    ensures Trim(s) == s
  {}

  lemma FenceLines(tag: string, middle: string, last: string)
    requires '\n' !in tag && '\n' !in last
    ensures Split(FENCE + tag + "\n" + middle + "\n" + last, '\n') == [FENCE + tag] + Split(middle, '\n') + [last]
  {
    var head := FENCE + tag;
    SplitWithoutSeparator(head, '\n');
    SplitWithoutSeparator(last, '\n');
    SplitConcat(middle, last, '\n');
    SplitConcat(head, middle + ['\n'] + last, '\n');
    assert FENCE + tag + "\n" + middle + "\n" + last == head + ['\n'] + (middle + ['\n'] + last);
  }

  /** Whatever the body, even one holding fence lines of its own, and whatever
      white space surrounds the text, all copies return the trimmed body. */
  lemma FencedBodyComesBack(response: string, tag: string, body: string)
    requires '\n' !in tag && Trim(response) == FENCE + tag + "\n" + body + "\n" + FENCE
    ensures StripToFence(response) == StripEnds(response) == Trim(body)
  {
    var r := Trim(response);
    var lines := Split(r, '\n');
    FenceLines(tag, body, FENCE);
    assert lines[|lines| - 1] == FENCE;
    TrimFixed(FENCE);
    assert r[..3] == FENCE;
    assert lines[1..|lines| - 1] == Split(body, '\n');
    JoinAfterSplit(body, '\n');
  }

  /** The copy that always drops the last line keeps what lies between the first
      and the last, whatever the last one holds. */
  lemma EndsDropTwoLines(response: string, tag: string, body: string, last: string)
    requires '\n' !in tag && '\n' !in last && Trim(response) == "```" + tag + "\n" + body + "\n" + last
    ensures StripEnds(response) == Trim(body)
  {
    FenceLines(tag, body, last);
    var lines := Split(Trim(response), '\n');
    assert Trim(response)[..3] == FENCE;
    assert lines[1..|lines| - 1] == Split(body, '\n');
    JoinAfterSplit(body, '\n');
  }

  /** Text that does not begin with a fence, or has one line, is only trimmed. */
  lemma UnfencedIsTrimmed(response: string)
    requires !("```" <= Trim(response)) || '\n' !in Trim(response)
    ensures StripToFence(response) == StripEnds(response) == Trim(response)
  {
    TrimTwice(response);
    if '\n' !in Trim(response) { SplitWithoutSeparator(Trim(response), '\n'); }
  }

  /** Such texts exist: a fenced text without outer white space is its own trim. */
  lemma FencedTextIsTrimmed(tag: string, body: string)
    ensures Trim(FENCE + tag + "\n" + body + "\n" + FENCE) == FENCE + tag + "\n" + body + "\n" + FENCE
  {
    var s := FENCE + tag + "\n" + body + "\n" + FENCE;
    assert s[0] == '`' && s[|s| - 1] == '`';
    TrimFixed(s);
  }

  // ----- when the copies differ -----

  function Ink(s: string): nat {
    if s == [] then 0 else (if IsSpace(s[0]) then 0 else 1) + Ink(s[1..])
  }

  lemma {:induction false} InkConcat(a: string, b: string)
    ensures Ink(a + b) == Ink(a) + Ink(b)
  {
    if a == [] {
      assert a + b == b;
    } else {
      assert (a + b)[1..] == a[1..] + b;
      InkConcat(a[1..], b);
    }
  }

  lemma {:induction false} TrimLeftKeepsInk(s: string)
    ensures Ink(TrimLeft(s)) == Ink(s)
  {
    if s != [] && IsSpace(s[0]) { TrimLeftKeepsInk(s[1..]); }
  }

  lemma {:induction false} TrimRightKeepsInk(s: string)
    ensures Ink(TrimRight(s)) == Ink(s)
  {
    if s != [] && IsSpace(s[|s| - 1]) {
      TrimRightKeepsInk(s[..|s| - 1]);
      assert s == s[..|s| - 1] + [s[|s| - 1]];
      InkConcat(s[..|s| - 1], [s[|s| - 1]]);
    }
  }

  lemma TrimKeepsInk(s: string)
    ensures Ink(Trim(s)) == Ink(s)
  {
    TrimLeftKeepsInk(s);
    TrimRightKeepsInk(TrimLeft(s));
  }

  function TotalInk(lines: seq<string>): nat {
    if lines == [] then 0 else Ink(lines[0]) + TotalInk(lines[1..])
  }

  lemma {:induction false} JoinInk(lines: seq<string>)
    ensures Ink(Join(lines, '\n')) == TotalInk(lines)
  {
    if |lines| > 1 {
      JoinInk(lines[1..]);
      InkConcat(lines[0] + ['\n'], Join(lines[1..], '\n'));
      InkConcat(lines[0], ['\n']);
    }
  }

  lemma {:induction false} MoreLinesMoreInk(lines: seq<string>, e: nat)
    requires e < |lines|
    ensures TotalInk(lines) >= TotalInk(lines[..e]) + Ink(lines[e])
  {
    if e > 0 {
      MoreLinesMoreInk(lines[1..], e - 1);
      assert lines[..e][1..] == lines[1..][..e - 1];
    }
  }

  lemma TrimmedInk(lines: seq<string>)
    ensures Ink(Trim(Join(lines, '\n'))) == TotalInk(lines)
  {
    JoinInk(lines);
    TrimKeepsInk(Join(lines, '\n'));
  }

  lemma FenceHasInk(line: string)
    requires IsLoneFence(line)
    ensures Ink(line) > 0
  {
    TrimKeepsInk(line);
    assert FENCE[0] == '`';
  }

  lemma EarlyEndHasLessInk(lines: seq<string>, e: nat)
    requires 1 <= e < |lines| - 1 && IsLoneFence(lines[e])
    ensures Trim(Join(lines[1..e], '\n')) != Trim(Join(lines[1..|lines| - 1], '\n'))
  {
    FenceHasInk(lines[e]);
    PrefixOfSlice(lines, e);
    InkBeyond(lines[1..|lines| - 1], lines[1..e], e - 1);
  }

  lemma PrefixOfSlice<T>(s: seq<T>, e: nat)
    requires 1 <= e < |s| - 1
    ensures s[1..|s| - 1][..e - 1] == s[1..e] && s[1..|s| - 1][e - 1] == s[e]
  {}

  lemma InkBeyond(all: seq<string>, some: seq<string>, k: nat)
    requires k < |all| && all[..k] == some && Ink(all[k]) > 0
    ensures Trim(Join(some, '\n')) != Trim(Join(all, '\n'))
  {
    MoreLinesMoreInk(all, k);
    TrimmedInk(all);
    TrimmedInk(some);
  }

  lemma {:induction false} LastLineEnds(s: string)
    requires s != [] && s[|s| - 1] != '\n'
    ensures var lines := Split(s, '\n'); var last := lines[|lines| - 1];
      last != [] && last[|last| - 1] == s[|s| - 1]
  {
    if |s| > 1 { LastLineEnds(s[1..]); }
  }

  lemma {:induction false} TrimRightEnds(s: string)
    ensures TrimRight(s) != [] ==> !IsSpace(TrimRight(s)[|TrimRight(s)| - 1])
  {
    if s != [] && IsSpace(s[|s| - 1]) { TrimRightEnds(s[..|s| - 1]); }
  }

  /** The last line of a trimmed text is not blank. */
  lemma LastLineHasInk(response: string)
    requires Trim(response) != []
    ensures var lines := Split(Trim(response), '\n'); Ink(lines[|lines| - 1]) > 0
  {
    var r := Trim(response);
    TrimRightEnds(TrimLeft(response));
    LastLineEnds(r);
    var lines := Split(r, '\n');
    var last := lines[|lines| - 1];
    assert last == last[..|last| - 1] + [last[|last| - 1]];
    InkConcat(last[..|last| - 1], [last[|last| - 1]]);
  }

  lemma LosesLastLine(lines: seq<string>)
    requires 2 <= |lines| && Ink(lines[|lines| - 1]) > 0
    ensures Trim(Join(lines[1..|lines| - 1], '\n')) != Trim(Join(lines[1..], '\n'))
  {
    var n := |lines| - 2;
    assert lines[1..][..n] == lines[1..|lines| - 1] && lines[1..][n] == lines[|lines| - 1];
    InkBeyond(lines[1..], lines[1..|lines| - 1], n);
  }

  /** What the copies that look for the closing fence keep of any fenced text: the
      lines up to e. If some line after the first is a lone fence, e is the last
      such line; if none is, the fence was never closed, and the text loses its
      last line, which is not blank. */
  lemma UnclosedFenceLosesLastLine(response: string) returns (e: nat)
    requires Fenced(Trim(response))
    ensures var lines := Split(Trim(response), '\n');
      && 1 <= e < |lines| && StripToFence(response) == Trim(Join(lines[1..e], '\n'))
      && (forall k :: e < k < |lines| ==> !IsLoneFence(lines[k]))
      && (IsLoneFence(lines[e]) <==> SomeHit(lines, IsLoneFence))
      && (!SomeHit(lines, IsLoneFence) ==> e == |lines| - 1 && StripToFence(response) != Trim(Join(lines[1..], '\n')))
  {
    var lines := Split(Trim(response), '\n');
    e := EndIndex(lines);
    EndFacts(lines, IsLoneFence);
    LastLineHasInk(response);
    LosesLastLine(lines);
  }

  /** An example: an opening fence and one line leave nothing. */
  lemma TwoLinesLeaveNothing(response: string)
    requires response == "```\nx"
    ensures StripToFence(response) == ""
  {
    TrimFixed(response);
    FenceLinesOfTwo();
    var lines := Split(response, '\n');
    assert response[..3] == FENCE && lines[1..1] == [];
    TrimFixed("x");
  }

  lemma FenceLinesOfTwo()
    ensures Split("```\nx", '\n') == ["```", "x"]
  {
    SplitWithoutSeparator("```", '\n');
    SplitWithoutSeparator("x", '\n');
    SplitConcat("```", "x", '\n');
    assert "```\nx" == "```" + ['\n'] + "x";
  }

  /** Text after the closing fence is what tells the copies apart: they agree
      exactly when the text is not fenced or its last lone fence line, if it has
      one after the opening, is its last line. */
  lemma CopiesAgreeExactly(response: string)
    ensures StripToFence(response) == StripEnds(response) <==>
      var r := Trim(response);
      Fenced(r) ==>
        var lines := Split(r, '\n');
        IsLoneFence(lines[|lines| - 1]) || !SomeHit(lines, IsLoneFence)
  {
    var r := Trim(response);
    if Fenced(r) { EndsAgreeExactly(Split(r, '\n')); }
  }

  lemma EndsAgreeExactly(lines: seq<string>)
    requires 2 <= |lines|
    ensures Trim(Join(lines[1..EndIndex(lines)], '\n')) == Trim(Join(lines[1..|lines| - 1], '\n')) <==>
      IsLoneFence(lines[|lines| - 1]) || !SomeHit(lines, IsLoneFence)
  {
    EndFacts(lines, IsLoneFence);
    if EndIndex(lines) < |lines| - 1 { EarlyEndHasLessInk(lines, EndIndex(lines)); }
  }
}
