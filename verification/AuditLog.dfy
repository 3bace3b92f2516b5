/** The hash-chained audit log. SHA-256 (section 6.2 of FIPS 180-4) is any
    function into 64-character digests; nothing is assumed about collisions, so
    results read "agree, or here is a collision". */
module AuditLog {
  import opened Wrappers

  type Digest = s: string | |s| == 64 && forall i :: 0 <= i < |s| ==> IsHex(s[i]) witness seq(64, _ => '0')

  type Hasher = string -> Digest

  predicate IsHex(c: char) {
    '0' <= c <= '9' || 'a' <= c <= 'f'
  }

  /** Parses a stored time and formats it again, in UTC with nanoseconds. */
  type Reformat = string -> Option<string>

  datatype Entry = Entry(subsystem: string, eventType: string, actorId: string, payload: string)

  datatype Row = Row(timestamp: string, entry: Entry, prevHash: string, hash: string)

  /** The bytes hashed after the previous hash, one field behind the other. */
  function Fields(timestamp: string, e: Entry): string {
    timestamp + e.subsystem + e.eventType + e.actorId + e.payload
  }

  function ComputeHash(sha: Hasher, prevHash: string, timestamp: string, e: Entry): Digest {
    sha(prevHash + Fields(timestamp, e))
  }

  function Latest(rows: seq<Row>): string {
    if rows == [] then "" else rows[|rows| - 1].hash
  }

  function Written(sha: Hasher, rows: seq<Row>, timestamp: string, e: Entry): seq<Row> {
    rows + [Row(timestamp, e, Latest(rows), ComputeHash(sha, Latest(rows), timestamp, e))]
  }

  /** The rows' times format with a four-digit year and a dash (section 5.6 of
      RFC 3339), as all times of the years 0 to 9999 do. */
  predicate Dated(reformat: Reformat, rows: seq<Row>) {
    forall k :: 0 <= k < |rows| && reformat(rows[k].timestamp).Some? ==>
      var t := reformat(rows[k].timestamp).value;
      4 < |t| && t[4] == '-'
  }

  datatype Fault = CorruptTimestamp | ChainBroken | HashMismatch

  /** What is wrong with a row that follows `prev`, if anything, in the order the
      checks are made. */
  function RowFault(sha: Hasher, reformat: Reformat, prev: string, r: Row): Option<Fault> {
    if reformat(r.timestamp).None? then Some(CorruptTimestamp)
    else if r.prevHash != prev then Some(ChainBroken)
    else if r.hash != ComputeHash(sha, prev, reformat(r.timestamp).value, r.entry) then Some(HashMismatch)
    else None
  }

  predicate Verifies(sha: Hasher, reformat: Reformat, rows: seq<Row>) {
    forall k :: 0 <= k < |rows| ==> RowFault(sha, reformat, Latest(rows[..k]), rows[k]) == None
  }

  class AuditLog {
    var rows: seq<Row>
    const sha: Hasher
    const reformat: Reformat

    constructor (sha: Hasher, reformat: Reformat)
      ensures rows == [] && this.sha == sha && this.reformat == reformat
    {
      rows := [];
      this.sha, this.reformat := sha, reformat;
    }

    method LatestHash() returns (hash: string)
      ensures hash == Latest(rows)
    {
      hash := "";
      if rows != [] { hash := rows[|rows| - 1].hash; }
    }

    /** Appends an entry chained to the last row, so a verifying log stays one. */
    method Write(timestamp: string, e: Entry)
      modifies this
      ensures rows == Written(sha, old(rows), timestamp, e)
      ensures Verifies(sha, reformat, old(rows)) && reformat(timestamp) == Some(timestamp) ==>
        Verifies(sha, reformat, rows)
    {
      var prevHash := LatestHash();
      var hash := ComputeHash(sha, prevHash, timestamp, e);
      WriteKeepsVerifying(sha, reformat, rows, timestamp, e);
      rows := rows + [Row(timestamp, e, prevHash, hash)];
    }

    /** Walks all rows; reports the first faulty one, or none when all are sound. */
    method Verify() returns (fault: Option<(nat, Fault)>)
      ensures fault.None? <==> Verifies(sha, reformat, rows)
      ensures fault.Some? ==>
        var (k, f) := fault.value;
        && k < |rows| && RowFault(sha, reformat, Latest(rows[..k]), rows[k]) == Some(f)
        && (f == CorruptTimestamp <==> reformat(rows[k].timestamp).None?)
        && (f == ChainBroken ==> rows[k].prevHash != (if k == 0 then "" else rows[k - 1].hash))
        && (f == HashMismatch ==> rows[k].prevHash == if k == 0 then "" else rows[k - 1].hash)
        && Verifies(sha, reformat, rows[..k])
    {
      var prevHash := "";
      for k := 0 to |rows|
        invariant prevHash == Latest(rows[..k])
        invariant Verifies(sha, reformat, rows[..k])
      {
        var r := rows[k];
        var fault := RowFault(sha, reformat, prevHash, r);
        if fault.Some? {
          return Some((k, fault.value));
        }
        VerifiesSnoc(sha, reformat, rows[..k], r);
        assert rows[..k + 1] == rows[..k] + [r];
        prevHash := r.hash;
      }
      assert rows[..|rows|] == rows;
      return None;
    }
  }

  lemma VerifiesSnoc(sha: Hasher, reformat: Reformat, rows: seq<Row>, r: Row)
    requires Verifies(sha, reformat, rows) && RowFault(sha, reformat, Latest(rows), r) == None
    ensures Verifies(sha, reformat, rows + [r])
  {
    var next := rows + [r];
    forall k | 0 <= k < |next| ensures RowFault(sha, reformat, Latest(next[..k]), next[k]) == None {
      assert next[..k] == if k < |rows| then rows[..k] else rows;
    }
  }

  lemma WriteKeepsVerifying(sha: Hasher, reformat: Reformat, rows: seq<Row>, timestamp: string, e: Entry)
    ensures Verifies(sha, reformat, rows) && reformat(timestamp) == Some(timestamp) ==>
      Verifies(sha, reformat, Written(sha, rows, timestamp, e))
  {
    if Verifies(sha, reformat, rows) && reformat(timestamp) == Some(timestamp) {
      VerifiesSnoc(sha, reformat, rows, Row(timestamp, e, Latest(rows), ComputeHash(sha, Latest(rows), timestamp, e)));
    }
  }

  /** A log written from empty. */
  function Build(sha: Hasher, entries: seq<(string, Entry)>): seq<Row> {
    if entries == [] then []
    else
      var (t, e) := entries[|entries| - 1];
      Written(sha, Build(sha, entries[..|entries| - 1]), t, e)
  }

  /** Every log that Write built passes Verify, and so does every prefix of a log
      that passes. */
  lemma {:induction false} BuiltLogsVerify(sha: Hasher, reformat: Reformat, entries: seq<(string, Entry)>)
    requires forall k :: 0 <= k < |entries| ==> reformat(entries[k].0) == Some(entries[k].0)
    ensures Verifies(sha, reformat, Build(sha, entries))
  {
    if entries != [] {
      var n := |entries| - 1;
      BuiltLogsVerify(sha, reformat, entries[..n]);
      WriteKeepsVerifying(sha, reformat, Build(sha, entries[..n]), entries[n].0, entries[n].1);
    }
  }

  lemma PrefixVerifies(sha: Hasher, reformat: Reformat, rows: seq<Row>, n: nat)
    requires Verifies(sha, reformat, rows) && n <= |rows|
    ensures Verifies(sha, reformat, rows[..n])
  {
    forall k | 0 <= k < n ensures RowFault(sha, reformat, Latest(rows[..n][..k]), rows[..n][k]) == None {
      assert rows[..n][..k] == rows[..k];
    }
  }

  // ----- what the last hash pins down -----

  ghost predicate Collision(sha: Hasher, x: string, y: string) {
    x != y && sha(x) == sha(y)
  }

  /** What a verifying log's row k hashes: previous hash and fields. */
  ghost function Hashed(reformat: Reformat, rows: seq<Row>, k: nat): string
    requires k < |rows| && reformat(rows[k].timestamp).Some?
  {
    Latest(rows[..k]) + Fields(reformat(rows[k].timestamp).value, rows[k].entry)
  }

  ghost predicate SameRows(reformat: Reformat, a: seq<Row>, b: seq<Row>) {
    && |a| == |b|
    && forall k :: 0 <= k < |a| ==>
         && reformat(a[k].timestamp).Some? && reformat(b[k].timestamp).Some?
         && Fields(reformat(a[k].timestamp).value, a[k].entry) == Fields(reformat(b[k].timestamp).value, b[k].entry)
         && a[k].prevHash == b[k].prevHash && a[k].hash == b[k].hash
  }

  lemma LatestLength(sha: Hasher, reformat: Reformat, rows: seq<Row>)
    requires Verifies(sha, reformat, rows)
    ensures |Latest(rows)| == if rows == [] then 0 else 64
    ensures rows != [] ==> forall i :: 0 <= i < 64 ==> Latest(rows)[i] != '-'
  {
    if rows != [] {
      var k := |rows| - 1;
      assert RowFault(sha, reformat, Latest(rows[..k]), rows[k]) == None;
      var d: Digest := ComputeHash(sha, Latest(rows[..k]), reformat(rows[k].timestamp).value, rows[k].entry);
      assert forall i :: 0 <= i < 64 ==> IsHex(d[i]);
    }
  }

  /** Equal hashed strings split alike: a previous hash is empty or 64 hex digits,
      while fields start with a year and a dash. */
  lemma HashedSplits(p: string, f: string, q: string, g: string)
    requires p + f == q + g
    requires |p| == 0 || (|p| == 64 && forall i :: 0 <= i < 64 ==> p[i] != '-')
    requires |q| == 0 || (|q| == 64 && forall i :: 0 <= i < 64 ==> q[i] != '-')
    requires 4 < |f| && f[4] == '-' && 4 < |g| && g[4] == '-'
    ensures p == q && f == g
  {
    assert (p + f)[4] == if p == [] then f[4] else p[4];
    assert (q + g)[4] == if q == [] then g[4] else q[4];
    assert |p| == |q|;
    assert p == (p + f)[..|p|] && q == (q + g)[..|q|];
    assert f == (p + f)[|p|..] && g == (q + g)[|q|..];
  }

  ghost predicate IsPrevHash(p: string) {
    |p| == 0 || (|p| == 64 && forall i :: 0 <= i < 64 ==> p[i] != '-')
  }

  lemma LastRow(sha: Hasher, reformat: Reformat, rows: seq<Row>)
    requires Verifies(sha, reformat, rows) && rows != []
    ensures var k := |rows| - 1;
      && reformat(rows[k].timestamp).Some? && rows[k].prevHash == Latest(rows[..k])
      && rows[k].hash == sha(Hashed(reformat, rows, k))
      && Verifies(sha, reformat, rows[..k]) && IsPrevHash(Latest(rows[..k]))
  {
    var k := |rows| - 1;
    assert RowFault(sha, reformat, Latest(rows[..k]), rows[k]) == None;
    PrefixVerifies(sha, reformat, rows, k);
    LatestLength(sha, reformat, rows[..k]);
  }

  lemma LastRowsAgree(reformat: Reformat, a: seq<Row>, b: seq<Row>)
    requires Dated(reformat, a) && Dated(reformat, b) && a != [] && b != []
    requires reformat(a[|a| - 1].timestamp).Some? && reformat(b[|b| - 1].timestamp).Some?
    requires Hashed(reformat, a, |a| - 1) == Hashed(reformat, b, |b| - 1)
    requires IsPrevHash(Latest(a[..|a| - 1])) && IsPrevHash(Latest(b[..|b| - 1]))
    ensures Latest(a[..|a| - 1]) == Latest(b[..|b| - 1])
    ensures Fields(reformat(a[|a| - 1].timestamp).value, a[|a| - 1].entry)
            == Fields(reformat(b[|b| - 1].timestamp).value, b[|b| - 1].entry)
  {
    var m, n := |a| - 1, |b| - 1;
    var t, u := reformat(a[m].timestamp).value, reformat(b[n].timestamp).value;
    var f, g := Fields(t, a[m].entry), Fields(u, b[n].entry);
    assert f[4] == t[4] && g[4] == u[4];
    HashedSplits(Latest(a[..m]), f, Latest(b[..n]), g);
  }

  lemma SameRowsExtend(reformat: Reformat, a: seq<Row>, b: seq<Row>)
    requires a != [] && b != [] && SameRows(reformat, a[..|a| - 1], b[..|b| - 1])
    requires var x, y := a[|a| - 1], b[|b| - 1];
      && x.prevHash == y.prevHash && x.hash == y.hash
      && reformat(x.timestamp).Some? && reformat(y.timestamp).Some?
      && Fields(reformat(x.timestamp).value, x.entry) == Fields(reformat(y.timestamp).value, y.entry)
    ensures SameRows(reformat, a, b)
  {
    var p, q := a[..|a| - 1], b[..|b| - 1];
    assert forall k :: 0 <= k < |p| ==> a[k] == p[k] && b[k] == q[k];
  }

  /** Two verifying logs with the same latest hash have the same length and agree
      row by row on the hashed fields, or two of the strings they hash collide. */
  lemma {:induction false} SameLatestHash(sha: Hasher, reformat: Reformat, a: seq<Row>, b: seq<Row>)
    returns (x: string, y: string)
    requires Dated(reformat, a) && Dated(reformat, b) && Verifies(sha, reformat, a) && Verifies(sha, reformat, b)
    requires Latest(a) == Latest(b)
    ensures SameRows(reformat, a, b) || Collision(sha, x, y)
    decreases |a|
  {
    x, y := "", "";
    LatestLength(sha, reformat, a);
    LatestLength(sha, reformat, b);
    if a != [] {
      var m, n := |a| - 1, |b| - 1;
      LastRow(sha, reformat, a);
      LastRow(sha, reformat, b);
      if Hashed(reformat, a, m) == Hashed(reformat, b, n) {
        LastRowsAgree(reformat, a, b);
        x, y := SameLatestHash(sha, reformat, a[..m], b[..n]);
        if !Collision(sha, x, y) { SameRowsExtend(reformat, a, b); }
      } else {
        x, y := Hashed(reformat, a, m), Hashed(reformat, b, n);
      }
    }
  }

  // ----- what it does not pin down -----

  lemma SameHashes(rows: seq<Row>, changed: seq<Row>)
    requires |rows| == |changed| && forall j :: 0 <= j < |rows| ==> changed[j].hash == rows[j].hash
    ensures forall j :: 0 <= j < |rows| ==> Latest(changed[..j]) == Latest(rows[..j])
  {
    forall j | 0 <= j < |rows| ensures Latest(changed[..j]) == Latest(rows[..j]) {
      if j > 0 { assert changed[..j][j - 1] == changed[j - 1] && rows[..j][j - 1] == rows[j - 1]; }
    }
  }

  /** Rewriting the entry of any one row, stored hashes untouched, goes unnoticed
      exactly when the row hashes to the same digest ... */
  lemma RewriteNoticedExactly(sha: Hasher, reformat: Reformat, rows: seq<Row>, k: nat, e: Entry)
    requires Verifies(sha, reformat, rows) && k < |rows|
    ensures Verifies(sha, reformat, rows[k := rows[k].(entry := e)]) <==>
      ComputeHash(sha, rows[k].prevHash, reformat(rows[k].timestamp).value, e) == rows[k].hash
  {
    var changed := rows[k := rows[k].(entry := e)];
    assert RowFault(sha, reformat, Latest(rows[..k]), rows[k]) == None;
    SameHashes(rows, changed);
    assert changed[k] == rows[k].(entry := e);
    forall j | 0 <= j < |rows| && j != k ensures RowFault(sha, reformat, Latest(changed[..j]), changed[j]) == None {
      assert RowFault(sha, reformat, Latest(rows[..j]), rows[j]) == None;
    }
  }

  /** ... that is, when its fields run together to the same text, or else the two
      texts collide. */
  lemma RewriteHiddenExactly(sha: Hasher, reformat: Reformat, rows: seq<Row>, k: nat, e: Entry)
    requires Verifies(sha, reformat, rows) && k < |rows|
    ensures reformat(rows[k].timestamp).Some?
    ensures var t, prev := reformat(rows[k].timestamp).value, rows[k].prevHash;
      Verifies(sha, reformat, rows[k := rows[k].(entry := e)]) <==>
        || Fields(t, e) == Fields(t, rows[k].entry)
        || Collision(sha, prev + Fields(t, e), prev + Fields(t, rows[k].entry))
  {
    assert RowFault(sha, reformat, Latest(rows[..k]), rows[k]) == None;
    var t, prev := reformat(rows[k].timestamp).value, rows[k].prevHash;
    RewriteNoticedExactly(sha, reformat, rows, k, e);
    if prev + Fields(t, e) == prev + Fields(t, rows[k].entry) {
      assert (prev + Fields(t, e))[|prev|..] == Fields(t, e);
      assert (prev + Fields(t, rows[k].entry))[|prev|..] == Fields(t, rows[k].entry);
    }
  }

  lemma Slices(a: string, b: string)
    ensures (a + b)[..|a|] == a && (a + b)[|a|..] == b
  {}

  /** The hashed text holds the previous hash, the time and all four fields, one
      behind the other, and nothing else. */
  lemma HashedTextLayout(sha: Hasher, prev: string, t: string, e: Entry) returns (text: string)
    ensures ComputeHash(sha, prev, t, e) == sha(text)
    ensures |text| == |prev| + |t| + |e.subsystem| + |e.eventType| + |e.actorId| + |e.payload|
    ensures var a := |prev|; var b := a + |t|; var c := b + |e.subsystem|; var d := c + |e.eventType|; var f := d + |e.actorId|;
      && text[..a] == prev && text[a..b] == t && text[b..c] == e.subsystem && text[c..d] == e.eventType
      && text[d..f] == e.actorId && text[f..] == e.payload
  {
    text := prev + Fields(t, e);
    var head := prev + t + e.subsystem + e.eventType + e.actorId;
    assert text == head + e.payload;
    Slices(head, e.payload);
    Slices(prev + t + e.subsystem + e.eventType, e.actorId);
    Slices(prev + t + e.subsystem, e.eventType);
    Slices(prev + t, e.subsystem);
    Slices(prev, t);
  }

  /** The two entries differ in one field and agree on the other three. */
  predicate OneFieldDiffers(e: Entry, f: Entry) {
    || (e.subsystem != f.subsystem && f == e.(subsystem := f.subsystem))
    || (e.eventType != f.eventType && f == e.(eventType := f.eventType))
    || (e.actorId != f.actorId && f == e.(actorId := f.actorId))
    || (e.payload != f.payload && f == e.(payload := f.payload))
  }

  lemma InsideDiffers(a: string, x: string, y: string, b: string)
    requires x != y
    ensures a + x + b != a + y + b
  {
    if |x| == |y| {
      var i :| 0 <= i < |x| && x[i] != y[i];
      assert (a + x + b)[|a| + i] == x[i] && (a + y + b)[|a| + i] == y[i];
    }
  }

  lemma FieldsTellOneField(t: string, e: Entry, f: Entry)
    requires OneFieldDiffers(e, f)
    ensures Fields(t, e) != Fields(t, f)
  {
    InsideOneField(t, e, f);
    assert Fields(t, e) == t + e.subsystem + (e.eventType + e.actorId + e.payload);
    assert Fields(t, e) == t + e.subsystem + e.eventType + (e.actorId + e.payload);
    assert Fields(t, f) == t + f.subsystem + (f.eventType + f.actorId + f.payload);
    assert Fields(t, f) == t + f.subsystem + f.eventType + (f.actorId + f.payload);
    assert Fields(t, e) == t + e.subsystem + e.eventType + e.actorId + e.payload + "";
    assert Fields(t, f) == t + f.subsystem + f.eventType + f.actorId + f.payload + "";
  }

  lemma InsideOneField(t: string, e: Entry, f: Entry)
    requires OneFieldDiffers(e, f)
    ensures e.subsystem != f.subsystem ==>
      t + e.subsystem + (e.eventType + e.actorId + e.payload) != t + f.subsystem + (f.eventType + f.actorId + f.payload)
    ensures e.eventType != f.eventType ==>
      t + e.subsystem + e.eventType + (e.actorId + e.payload) != t + f.subsystem + f.eventType + (f.actorId + f.payload)
    ensures e.actorId != f.actorId ==>
      t + e.subsystem + e.eventType + e.actorId + e.payload != t + f.subsystem + f.eventType + f.actorId + f.payload
    ensures e.payload != f.payload ==>
      t + e.subsystem + e.eventType + e.actorId + e.payload + "" != t + f.subsystem + f.eventType + f.actorId + f.payload + ""
  {
    if e.subsystem != f.subsystem { InsideDiffers(t, e.subsystem, f.subsystem, e.eventType + e.actorId + e.payload); }
    if e.eventType != f.eventType { InsideDiffers(t + e.subsystem, e.eventType, f.eventType, e.actorId + e.payload); }
    if e.actorId != f.actorId { InsideDiffers(t + e.subsystem + e.eventType, e.actorId, f.actorId, e.payload); }
    if e.payload != f.payload { InsideDiffers(t + e.subsystem + e.eventType + e.actorId, e.payload, f.payload, ""); }
  }

  /** Rewriting exactly one field of one row of a verifying log is noticed, or else
      two different texts have the same digest. */
  lemma OneFieldRewriteNoticed(sha: Hasher, reformat: Reformat, rows: seq<Row>, k: nat, e: Entry)
    returns (x: string, y: string)
    requires Verifies(sha, reformat, rows) && k < |rows| && OneFieldDiffers(rows[k].entry, e)
    requires Verifies(sha, reformat, rows[k := rows[k].(entry := e)])
    ensures x != y && sha(x) == sha(y)
  {
    RewriteHiddenExactly(sha, reformat, rows, k, e);
    var t, prev := reformat(rows[k].timestamp).value, rows[k].prevHash;
    FieldsTellOneField(t, rows[k].entry, e);
    x, y := prev + Fields(t, e), prev + Fields(t, rows[k].entry);
  }

  /** An example: a letter moved over a field boundary of a written row. */
  lemma MovedLetterUnnoticed(sha: Hasher, reformat: Reformat, timestamp: string, was: Entry, now: Entry)
    requires reformat(timestamp) == Some(timestamp)
    requires was == Entry("ags", "goal", "x", "") && now == Entry("agsg", "oal", "x", "")
    ensures var rows := Build(sha, [(timestamp, was)]);
      |rows| == 1 && rows[0].entry == was && Verifies(sha, reformat, rows[0 := rows[0].(entry := now)])
  {
    var entries := [(timestamp, was)];
    BuiltLogsVerify(sha, reformat, entries);
    var rows := Build(sha, entries);
    assert entries[..0] == [] && Build(sha, entries[..0]) == [];
    assert rows == Written(sha, [], timestamp, was);
    assert was.subsystem + was.eventType == now.subsystem + now.eventType;
    assert timestamp + was.subsystem + was.eventType == timestamp + (was.subsystem + was.eventType);
    assert timestamp + now.subsystem + now.eventType == timestamp + (now.subsystem + now.eventType);
    RewriteHiddenExactly(sha, reformat, rows, 0, now);
  }
}
