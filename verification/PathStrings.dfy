/** The path column of the path query: entity IDs joined by commas, extended by
    concatenation and searched with LIKE. */
module PathStrings {
  import opened Strings

  const UUID_LENGTH := 36

  predicate IsUuidChar(c: char) {
    '0' <= c <= '9' || 'a' <= c <= 'f' || c == '-'
  }

  predicate IsUuid(s: string) {
    |s| == UUID_LENGTH && forall i :: 0 <= i < |s| ==> IsUuidChar(s[i])
  }

  type Uuid = s: string | IsUuid(s) witness seq(UUID_LENGTH, _ => '0')

  /** SQLite's LIKE: % matches any run, _ any one character, the rest match
      without regard to ASCII case. */
  predicate Like(text: string, pattern: string)
    decreases |pattern|, |text|
  {
    if pattern == [] then text == []
    else if pattern[0] == '%' then
      Like(text, pattern[1..]) || (text != [] && Like(text[1..], pattern))
    else
      && text != []
      && (pattern[0] == '_' || LowerChar(pattern[0]) == LowerChar(text[0]))
      && Like(text[1..], pattern[1..])
  }

  ghost predicate Plain(s: string) {
    forall i :: 0 <= i < |s| ==> s[i] != '%' && s[i] != '_' && LowerChar(s[i]) == s[i]
  }

  lemma {:induction false} AnythingLikePercent(text: string)
    ensures Like(text, "%")
  {
    if text != [] { AnythingLikePercent(text[1..]); }
  }

  lemma {:induction false} LikePrefix(text: string, part: string)
    requires Plain(part) && Plain(text)
    ensures Like(text, part + "%") <==> OccursAt(text, part, 0)
  {
    var pattern := part + "%";
    if part == [] {
      AnythingLikePercent(text);
      assert pattern == "%";
    } else if text != [] {
      assert pattern[1..] == part[1..] + "%";
      LikePrefix(text[1..], part[1..]);
      assert Like(text, pattern) <==> part[0] == text[0] && Like(text[1..], part[1..] + "%");
      if OccursAt(text, part, 0) {
        assert text[..|part|][0] == text[0];
        assert text[1..][..|part| - 1] == text[..|part|][1..] == part[1..];
      }
      if part[0] == text[0] && OccursAt(text[1..], part[1..], 0) {
        assert text[..|part|] == [text[0]] + text[1..][..|part| - 1] == part;
      }
    }
  }

  lemma OccursInTail(text: string, part: string, i: nat)
    requires 0 < i && text != []
    ensures OccursAt(text, part, i) <==> OccursAt(text[1..], part, i - 1)
  {
    if i + |part| <= |text| {
      assert text[i..i + |part|] == text[1..][i - 1..i - 1 + |part|];
    }
  }

  /** LIKE '%' || part || '%' is substring search when part holds no wildcard. */
  lemma {:induction false} LikeIsSubstring(text: string, part: string)
    requires Plain(part) && Plain(text)
    ensures Like(text, "%" + part + "%") <==> exists i: nat :: OccursAt(text, part, i)
  {
    var pattern := "%" + part + "%";
    assert pattern[1..] == part + "%";
    LikePrefix(text, part);
    assert Like(text, pattern) <==> OccursAt(text, part, 0) || (text != [] && Like(text[1..], pattern));
    if text != [] {
      LikeIsSubstring(text[1..], part);
      if i: nat :| OccursAt(text[1..], part, i) {
        OccursInTail(text, part, i + 1);
      }
      if i: nat :| OccursAt(text, part, i) && i > 0 {
        OccursInTail(text, part, i);
      }
    }
  }

  /** IDs sit at multiples of 37 and a comma follows each but the last. */
  lemma {:induction false} JoinLayout(ids: seq<Uuid>, k: nat)
    requires k < |ids|
    ensures var s := Join(ids, ',');
      && |s| == 37 * |ids| - 1
      && s[37 * k..37 * k + 36] == ids[k]
      && (k + 1 < |ids| ==> s[37 * k + 36] == ',')
  {
    if 1 < |ids| {
      var s, rest := Join(ids, ','), Join(ids[1..], ',');
      assert s == ids[0] + "," + rest;
      JoinLayout(ids[1..], if k == 0 then 0 else k - 1);
      if k > 0 {
        assert s[37..] == rest;
        assert s[37 * k..37 * k + 36] == rest[37 * (k - 1)..37 * (k - 1) + 36];
      } else {
        assert s[..36] == ids[0];
      }
    }
  }

  lemma NoCommaInUuid(x: Uuid)
    ensures ',' !in x
  {
    forall k | 0 <= k < |x| ensures x[k] != ',' {
      assert IsUuidChar(x[k]);
    }
  }

  lemma UnalignedWindowHasComma(ids: seq<Uuid>, i: nat)
    requires ids != [] && i % 37 != 0 && i + 36 <= |Join(ids, ',')|
    ensures ',' in Join(ids, ',')[i..i + 36]
  {
    var s := Join(ids, ',');
    JoinLayout(ids, 0);
    var k := i / 37;
    assert k + 1 < |ids|;
    JoinLayout(ids, k);
    assert s[i..i + 36][37 * k + 36 - i] == s[37 * k + 36];
  }

  /** An ID occurs in the joined path only where the path lists it: any other
      window of 36 characters holds a comma. */
  lemma OccurrenceIsMember(ids: seq<Uuid>, x: Uuid, i: nat)
    requires ids != [] && OccursAt(Join(ids, ','), x, i)
    ensures x in ids
  {
    NoCommaInUuid(x);
    if i % 37 != 0 {
      UnalignedWindowHasComma(ids, i);
    } else {
      JoinLayout(ids, 0);
      JoinLayout(ids, i / 37);
      assert x == ids[i / 37];
    }
  }

  lemma {:induction false} JoinIsPlain(ids: seq<Uuid>)
    ensures Plain(Join(ids, ','))
  {
    if |ids| == 1 {
      assert forall i :: 0 <= i < 36 ==> IsUuidChar(ids[0][i]);
    } else if |ids| > 1 {
      JoinIsPlain(ids[1..]);
      assert forall i :: 0 <= i < 36 ==> IsUuidChar(ids[0][i]);
      var s := ids[0] + [','] + Join(ids[1..], ',');
      forall i | 0 <= i < |s| ensures s[i] != '%' && s[i] != '_' && LowerChar(s[i]) == s[i] {
        if i > 36 { assert s[i] == Join(ids[1..], ',')[i - 37]; }
      }
    }
  }

  /** The NOT LIKE test of the path query is membership in the ID list. */
  lemma LikeIsMembership(ids: seq<Uuid>, x: Uuid)
    requires ids != []
    ensures Like(Join(ids, ','), "%" + x + "%") <==> x in ids
  {
    var s := Join(ids, ',');
    JoinIsPlain(ids);
    assert Plain(x) by { assert forall i :: 0 <= i < 36 ==> IsUuidChar(x[i]); }
    LikeIsSubstring(s, x);
    if i: nat :| OccursAt(s, x, i) { OccurrenceIsMember(ids, x, i); }
    if x in ids {
      var k :| 0 <= k < |ids| && ids[k] == x;
      JoinLayout(ids, k);
      assert OccursAt(s, x, 37 * k);
    }
  }

  /** Splitting the path string gives back the ID list, and appending
      ',' || id to the string appends id to the list. */
  lemma PathRoundTrip(ids: seq<Uuid>, x: Uuid)
    requires ids != []
    ensures Split(Join(ids, ','), ',') == ids
    ensures Join(ids, ',') + "," + x == Join(ids + [x], ',')
  {
    forall p | p in ids ensures ',' !in p {
      NoCommaInUuid(p);
    }
    SplitAfterJoin(ids, ',');
    var one: seq<string> := [x];
    JoinConcat(ids, one, ',');
  }
}
