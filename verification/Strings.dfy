/** Splitting at a separator character and joining again, as Go's strings.Split
    and strings.Join do for a one-character separator; substring tests. */
module Strings {
  predicate OccursAt(text: string, part: string, i: nat) {
    i + |part| <= |text| && text[i..i + |part|] == part
  }

  predicate Contains(text: string, part: string) {
    exists i :: 0 <= i <= |text| && OccursAt(text, part, i)
  }

  function LowerChar(c: char): char {
    if 'A' <= c <= 'Z' then (c as int - 'A' as int + 'a' as int) as char else c
  }

  /** Lower case for ASCII letters. */
  function Lower(s: string): string {
    seq(|s|, i requires 0 <= i < |s| => LowerChar(s[i]))
  }

  // ----- what searching in lower case means -----

  /** Equal but for the case of ASCII letters. */
  predicate SameLetter(c: char, d: char) {
    c == d || ('A' <= c <= 'Z' && d as int == c as int + 32) || ('A' <= d <= 'Z' && c as int == d as int + 32)
  }

  predicate SpeltAt(text: string, part: string, i: nat) {
    i + |part| <= |text| && forall k :: 0 <= k < |part| ==> SameLetter(text[i + k], part[k])
  }

  predicate Spells(text: string, part: string) {
    exists i :: 0 <= i <= |text| && SpeltAt(text, part, i)
  }

  lemma LowerMeans(c: char, d: char)
    ensures LowerChar(c) == LowerChar(d) <==> SameLetter(c, d)
  {}

  lemma LowerOccurs(text: string, part: string, i: nat)
    ensures OccursAt(Lower(text), Lower(part), i) <==> SpeltAt(text, part, i)
  {
    if i + |part| <= |text| {
      var slice := Lower(text)[i..i + |part|];
      forall k | 0 <= k < |part| ensures slice[k] == Lower(part)[k] <==> SameLetter(text[i + k], part[k]) {
        assert slice[k] == LowerChar(text[i + k]) && Lower(part)[k] == LowerChar(part[k]);
        LowerMeans(text[i + k], part[k]);
      }
      if SpeltAt(text, part, i) { assert slice == Lower(part); }
      if slice == Lower(part) {
        forall k | 0 <= k < |part| ensures SameLetter(text[i + k], part[k]) {
          assert slice[k] == Lower(part)[k];
        }
      }
    }
  }

  lemma LowerContains(text: string, part: string)
    ensures Contains(Lower(text), Lower(part)) <==> Spells(text, part)
  {
    if Contains(Lower(text), Lower(part)) {
      var i :| 0 <= i <= |Lower(text)| && OccursAt(Lower(text), Lower(part), i);
      LowerOccurs(text, part, i);
    }
    if Spells(text, part) {
      var i :| 0 <= i <= |text| && SpeltAt(text, part, i);
      LowerOccurs(text, part, i);
      assert i <= |Lower(text)|;
    }
  }

  // ----- splitting and joining -----

  function Split(s: string, sep: char): (parts: seq<string>)
    ensures parts != []
  {
    if s == [] then [""]
    else
      var rest := Split(s[1..], sep);
      if s[0] == sep then [""] + rest else [[s[0]] + rest[0]] + rest[1..]
  }

  function Join(parts: seq<string>, sep: char): string {
    if parts == [] then ""
    else if |parts| == 1 then parts[0]
    else parts[0] + [sep] + Join(parts[1..], sep)
  }

  lemma {:induction false} JoinAfterSplit(s: string, sep: char)
    ensures Join(Split(s, sep), sep) == s
  {
    if s != [] {
      JoinAfterSplit(s[1..], sep);
      var rest := Split(s[1..], sep);
      var parts := Split(s, sep);
      if s[0] == sep {
        assert parts[1..] == rest;
        assert Join(parts, sep) == "" + [sep] + Join(rest, sep);
      } else if |rest| == 1 {
        assert parts == [[s[0]] + rest[0]];
      } else {
        assert parts[1..] == rest[1..];
        assert Join(parts, sep) == [s[0]] + rest[0] + [sep] + Join(rest[1..], sep);
      }
    }
  }

  lemma {:induction false} SplitConcat(a: string, b: string, sep: char)
    ensures Split(a + [sep] + b, sep) == Split(a, sep) + Split(b, sep)
  {
    var s := a + [sep] + b;
    if a == [] {
      assert s[1..] == b;
    } else {
      assert s[1..] == a[1..] + [sep] + b;
      SplitConcat(a[1..], b, sep);
    }
  }

  lemma {:induction false} SplitWithoutSeparator(s: string, sep: char)
    requires sep !in s
    ensures Split(s, sep) == [s]
  {
    if s != [] {
      SplitWithoutSeparator(s[1..], sep);
      assert [s[0]] + s[1..] == s;
    }
  }

  lemma {:induction false} JoinConcat(a: seq<string>, b: seq<string>, sep: char)
    requires a != [] && b != []
    ensures Join(a + b, sep) == Join(a, sep) + [sep] + Join(b, sep)
  {
    if |a| == 1 {
      assert (a + b)[1..] == b;
    } else {
      assert (a + b)[1..] == a[1..] + b;
      JoinConcat(a[1..], b, sep);
    }
  }

  /** Splitting undoes joining for parts that do not hold the separator. */
  lemma {:induction false} SplitAfterJoin(parts: seq<string>, sep: char)
    requires parts != [] && forall p :: p in parts ==> sep !in p
    ensures Split(Join(parts, sep), sep) == parts
  {
    SplitWithoutSeparator(parts[0], sep);
    if 1 < |parts| {
      SplitAfterJoin(parts[1..], sep);
      SplitConcat(parts[0], Join(parts[1..], sep), sep);
      assert parts == [parts[0]] + parts[1..];
    }
  }
}
