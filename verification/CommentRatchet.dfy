/** The baseline: violations already recorded stay silent, wherever in its file a comment moves to. */
module CommentRatchet {
  import opened Options
  import opened Text
  import opened CommentScanner
  import opened CommentBlocks
  import opened CommentChecks

  datatype Report = Report(path: string, violations: seq<string>, fingerprints: map<string, string>)

  /** A baseline entry; older files hold the message alone. */
  datatype Entry = Bare(message: string) | Full(message: string, fingerprint: string)

  type Baseline = seq<(string, seq<Entry>)>

  function Key(path: string, message: string, fingerprint: string): string {
    path + "::" + Stable(message) + "::" + fingerprint
  }

  function EntryKey(path: string, e: Entry): string {
    Key(path, e.message, if e.Full? then e.fingerprint else "")
  }

  predicate Looked(r: Report) {
    forall i :: 0 <= i < |r.violations| ==> r.violations[i] in r.fingerprints
  }

  predicate AllLooked(reports: seq<Report>) {
    forall i :: 0 <= i < |reports| ==> Looked(reports[i])
  }

  function ViolationKey(r: Report, i: nat): string
    requires Looked(r) && i < |r.violations|
  {
    Key(r.path, r.violations[i], r.fingerprints[r.violations[i]])
  }

  predicate IsBaselined(b: Baseline, key: string) {
    exists i, j :: 0 <= i < |b| && 0 <= j < |b[i].1| && EntryKey(b[i].0, b[i].1[j]) == key
  }

  /** One of the first n entries of a file has the key. */
  predicate IsEntered(file: (string, seq<Entry>), n: nat, key: string) {
    exists x :: 0 <= x < n && x < |file.1| && EntryKey(file.0, file.1[x]) == key
  }

  // ----- writing and comparing -----

  function EntriesOf(r: Report, i: nat): (e: seq<Entry>)
    requires Looked(r) && i <= |r.violations|
    ensures |e| == |r.violations| - i
    decreases |r.violations| - i
  {
    if i == |r.violations| then [] else [Full(r.violations[i], r.fingerprints[r.violations[i]])] + EntriesOf(r, i + 1)
  }

  function Snapshot(reports: seq<Report>): Baseline
    requires AllLooked(reports)
  {
    if reports == [] then []
    else
      assert Looked(reports[0]);
      (if reports[0].violations == [] then [] else [(reports[0].path, EntriesOf(reports[0], 0))]) +
        Snapshot(reports[1..])
  }

  /** The violations of one report, from the i-th on, that the baseline does not hold. */
  function NewIn(b: Baseline, r: Report, i: nat): (news: seq<(string, string)>)
    requires Looked(r) && i <= |r.violations|
    decreases |r.violations| - i
  {
    if i == |r.violations| then []
    else (if IsBaselined(b, ViolationKey(r, i)) then [] else [(r.path, r.violations[i])]) + NewIn(b, r, i + 1)
  }

  function NewOnes(b: Baseline, reports: seq<Report>): seq<(string, string)>
    requires AllLooked(reports)
  {
    if reports == [] then []
    else
      assert Looked(reports[0]);
      NewIn(b, reports[0], 0) + NewOnes(b, reports[1..])
  }

  /** The reports a scan keeps: those that say something. */
  function Kept(reports: seq<Report>): (kept: seq<Report>)
    ensures AllLooked(reports) ==> AllLooked(kept)
  {
    if reports == [] then []
    else (if reports[0].violations == [] then [] else [reports[0]]) + Kept(reports[1..])
  }

  /** Files without a violation, or without a report, change neither the baseline written nor what is new. */
  lemma {:induction false} KeptIsEnough(b: Baseline, reports: seq<Report>)
    requires AllLooked(reports)
    ensures Snapshot(Kept(reports)) == Snapshot(reports) && NewOnes(b, Kept(reports)) == NewOnes(b, reports)
  {
    hide IsBaselined, ViolationKey, EntriesOf, NewIn;
    if reports != [] {
      var r, rest := reports[0], reports[1..];
      assert Looked(r);
      KeptIsEnough(b, rest);
      if r.violations == [] {
        NothingNew(b, r);
        assert Kept(reports) == Kept(rest);
      } else {
        assert Kept(reports) == [r] + Kept(rest) && Kept(reports)[1..] == Kept(rest);
      }
    }
  }

  class Ratchet {
    var baseline: Baseline

    constructor (baseline: Baseline)
      ensures this.baseline == baseline
    {
      this.baseline := baseline;
    }

    /** Only a scan of the whole repository may rewrite the baseline. */
    method Update(all: bool, explicitPaths: bool, reports: seq<Report>) returns (code: nat)
      requires AllLooked(reports)
      modifies this
      ensures code == if all && !explicitPaths then 0 else 2
      ensures baseline == if code == 0 then Snapshot(reports) else old(baseline)
    {
      if !all || explicitPaths {
        return 2;
      }
      hide Snapshot, EntriesOf;
      var entries: Baseline := [];
      assert reports[0..] == reports;
      for i := 0 to |reports|
        invariant baseline == old(baseline)
        invariant entries + Snapshot(reports[i..]) == Snapshot(reports)
      {
        NextSnapshot(reports, i);
        if reports[i].violations != [] {
          var entry := (reports[i].path, EntriesOf(reports[i], 0));
          Regrouped(entries, [entry], Snapshot(reports[i + 1..]));
          entries := entries + [entry];
        }
      }
      NoSnapshot(reports[|reports|..]);
      baseline := entries;
      code := 0;
    }

    method Keys() returns (keys: set<string>)
      ensures forall key :: key in keys <==> IsBaselined(baseline, key)
    {
      hide IsBaselined, IsEntered, EntryKey;
      keys := {};
      NothingBaselined(baseline[..0]);
      for i := 0 to |baseline|
        invariant forall key :: key in keys <==> IsBaselined(baseline[..i], key)
      {
        NothingEntered(baseline[i]);
        for j := 0 to |baseline[i].1|
          invariant forall key :: key in keys <==> IsBaselined(baseline[..i], key) || IsEntered(baseline[i], j, key)
        {
          OneMoreEntry(baseline[i], j);
          keys := keys + {EntryKey(baseline[i].0, baseline[i].1[j])};
        }
        OneMoreFile(baseline, i);
      }
      assert baseline[..|baseline|] == baseline;
    }

    /** Fails exactly when some violation is new. */
    method Compare(reports: seq<Report>) returns (news: seq<(string, string)>, code: nat)
      requires AllLooked(reports)
      ensures news == NewOnes(baseline, reports)
      ensures code == if news == [] then 0 else 1
    {
      hide IsBaselined, ViolationKey, Key, EntryKey, NewIn;
      var baselined := Keys();
      news := [];
      for i := 0 to |reports|
        invariant news + NewOnes(baseline, reports[i..]) == NewOnes(baseline, reports)
      {
        assert reports[i..][1..] == reports[i + 1..] && Looked(reports[i]);
        ghost var before := news;
        for j := 0 to |reports[i].violations|
          invariant news + NewIn(baseline, reports[i], j) == before + NewIn(baseline, reports[i], 0)
        {
          NextNew(baseline, reports[i], j);
          if ViolationKey(reports[i], j) !in baselined {
            news := news + [(reports[i].path, reports[i].violations[j])];
          }
        }
        NothingNew(baseline, reports[i]);
        assert news == before + NewIn(baseline, reports[i], 0);
        assert NewOnes(baseline, reports[i..]) == NewIn(baseline, reports[i], 0) + NewOnes(baseline, reports[i + 1..]);
      }
      assert reports[|reports|..] == [];
      code := if news == [] then 0 else 1;
    }
  }

  lemma NextSnapshot(reports: seq<Report>, i: nat)
    requires AllLooked(reports) && i < |reports|
    ensures var rest := Snapshot(reports[i + 1..]);
            Looked(reports[i]) && Snapshot(reports[i..]) ==
              if reports[i].violations == [] then rest else [(reports[i].path, EntriesOf(reports[i], 0))] + rest
  {
    hide EntriesOf;
    assert reports[i..][1..] == reports[i + 1..];
  }

  lemma NoSnapshot(reports: seq<Report>)
    requires reports == []
    ensures Snapshot(reports) == []
  {
  }

  lemma NextNew(b: Baseline, r: Report, i: nat)
    requires Looked(r) && i < |r.violations|
    ensures NewIn(b, r, i) == (if IsBaselined(b, ViolationKey(r, i)) then [] else [(r.path, r.violations[i])]) +
            NewIn(b, r, i + 1)
  {
  }

  lemma NothingNew(b: Baseline, r: Report)
    requires Looked(r)
    ensures NewIn(b, r, |r.violations|) == []
  {
  }

  lemma NothingBaselined(b: Baseline)
    requires b == []
    ensures forall key :: !IsBaselined(b, key)
  {
  }

  lemma NothingEntered(file: (string, seq<Entry>))
    ensures forall key :: !IsEntered(file, 0, key)
  {
  }

  lemma OneMoreEntry(file: (string, seq<Entry>), n: nat)
    requires n < |file.1|
    ensures forall key :: IsEntered(file, n + 1, key) <==> IsEntered(file, n, key) || key == EntryKey(file.0, file.1[n])
  {
    hide EntryKey;
  }

  lemma OneMoreFile(b: Baseline, i: nat)
    requires i < |b|
    ensures forall key :: IsBaselined(b[..i + 1], key) <==> IsBaselined(b[..i], key) || IsEntered(b[i], |b[i].1|, key)
  {
    hide EntryKey, IsBaselined, IsEntered;
    assert b[..i + 1] == b[..i] + [b[i]];
    forall key
      ensures IsBaselined(b[..i + 1], key) <==> IsBaselined(b[..i], key) || IsEntered(b[i], |b[i].1|, key)
    {
      BaselinedConcat(b[..i], [b[i]], key);
      OneFile(b[i], key);
    }
  }

  lemma OneFile(file: (string, seq<Entry>), key: string)
    ensures IsBaselined([file], key) <==> IsEntered(file, |file.1|, key)
  {
    hide EntryKey;
    var b: Baseline := [file];
    if x :| 0 <= x < |file.1| && EntryKey(file.0, file.1[x]) == key { assert EntryKey(b[0].0, b[0].1[x]) == key; }
  }

  // ----- a key says which comment -----

  predicate NoColon(s: string) { forall i :: 0 <= i < |s| ==> s[i] != ':' }

  /** The longer path swallows the start of the shorter one's text, at a separator or one colon into it. */
  predicate Straddles(path: string, text: string, longer: string, rest: string) {
    || (longer == path + ":" && text == ":" + rest)
    || (|longer| >= |path| + 2 && longer[..|path| + 2] == path + "::" && text == longer[|path| + 2..] + "::" + rest)
  }

  /**
   * When two violations share a key, fingerprints being hexadecimal or absent: same fingerprint, and the same path and
   * text apart from the line, unless one path runs into the other's text across a separator.
   */
  lemma KeyIsExact(p: string, m: string, f: string, q: string, n: string, g: string)
    requires NoColon(f) && NoColon(g)
    ensures Key(p, m, f) == Key(q, n, g) <==>
            f == g && ((p == q && Stable(m) == Stable(n)) || Straddles(p, Stable(m), q, Stable(n)) ||
                       Straddles(q, Stable(n), p, Stable(m)))
  {
    hide Stable, Straddles;
    SameFingerprint(p + "::" + Stable(m) + "::", f, q + "::" + Stable(n) + "::", g);
    if f == g {
      SameEnd(p + "::" + Stable(m), q + "::" + Stable(n), "::" + f);
      assert Key(p, m, f) == p + "::" + Stable(m) + ("::" + f) && Key(q, n, g) == q + "::" + Stable(n) + ("::" + f);
      SamePrefix(p, Stable(m), q, Stable(n));
      SamePrefix(q, Stable(n), p, Stable(m));
    }
  }

  /** What follows the last colon is the fingerprint. */
  lemma SameFingerprint(a: string, f: string, b: string, g: string)
    requires NoColon(f) && NoColon(g) && a != "" && b != "" && a[|a| - 1] == ':' && b[|b| - 1] == ':'
    ensures a + f == b + g ==> f == g
  {
    var k, l := a + f, b + g;
    if k == l {
      SameFingerprintLength(a, f, b, g);
      SameFingerprintLength(b, g, a, f);
      assert f == k[|k| - |f|..] && g == l[|l| - |g|..];
    }
  }

  lemma SameFingerprintLength(a: string, f: string, b: string, g: string)
    requires NoColon(g) && a + f == b + g && a != "" && a[|a| - 1] == ':'
    ensures |f| >= |g|
  {
    assert (a + f)[|a| - 1] == ':';
  }

  lemma SameEnd(a: string, b: string, end: string)
    ensures a + end == b + end <==> a == b
  {
    if a + end == b + end { assert a == (a + end)[..|a|] && b == (b + end)[..|b|]; }
  }

  lemma SamePrefix(p: string, text: string, q: string, rest: string)
    ensures |p| < |q| ==> (p + "::" + text == q + "::" + rest <==> Straddles(p, text, q, rest))
    ensures |p| == |q| ==> (p + "::" + text == q + "::" + rest <==> p == q && text == rest)
    ensures |p| >= |q| ==> !Straddles(p, text, q, rest)
  {
    var k, l := p + "::" + text, q + "::" + rest;
    if k == l && |p| <= |q| {
      assert p == k[..|p|] && p == q[..|p|] && text == k[|p| + 2..];
      if |q| == |p| + 1 {
        assert q == l[..|p| + 1] && q == p + ":" && text == ":" + rest;
      } else if |q| > |p| + 1 {
        assert q[..|p| + 2] == k[..|p| + 2] && text == q[|p| + 2..] + "::" + rest;
      } else {
        assert rest == l[|p| + 2..];
      }
    }
    if Straddles(p, text, q, rest) && |q| > |p| + 1 {
      assert q == p + "::" + q[|p| + 2..];
      assert k == l;
    }
  }

  /** Paths without a colon, as a repository's are, never straddle: then a changed comment is never silenced. */
  lemma PlainPathsNeverStraddle(path: string, text: string, longer: string, rest: string)
    requires NoColon(path) && NoColon(longer)
    ensures !Straddles(path, text, longer, rest)
  {
    assert (path + ":")[|path|] == ':' && (path + "::")[|path|] == ':';
    assert |longer| >= |path| + 2 ==> longer[..|path| + 2][|path|] == longer[|path|];
  }

  /** A path that holds the separator: two files, two texts, one key. */
  lemma KeysCollide(fingerprint: string)
    ensures Key("a::b", "c", fingerprint) == Key("a", "b::c", fingerprint)
  {
    assert "a::b" + "::" + "c" == "a" + "::" + "b::c";
  }

  /** The report has a violation under this key. */
  predicate Violates(r: Report, key: string) {
    Looked(r) && exists j :: 0 <= j < |r.violations| && ViolationKey(r, j) == key
  }

  predicate AnyViolates(reports: seq<Report>, key: string) {
    exists i :: 0 <= i < |reports| && Violates(reports[i], key)
  }

  lemma FileHolds(r: Report, key: string)
    requires Looked(r)
    ensures IsBaselined([(r.path, EntriesOf(r, 0))], key) <==> Violates(r, key)
  {
    hide EntryKey, ViolationKey;
    var b: Baseline := [(r.path, EntriesOf(r, 0))];
    forall j | 0 <= j < |r.violations| ensures EntryKey(b[0].0, b[0].1[j]) == ViolationKey(r, j) { EntryAt(r, 0, j); }
    if Violates(r, key) {
      var j :| 0 <= j < |r.violations| && ViolationKey(r, j) == key;
      assert EntryKey(b[0].0, b[0].1[j]) == key;
    }
  }

  lemma NothingHeld(key: string)
    ensures !IsBaselined([], key)
  {
  }

  /** The snapshot's entries are the violations of its reports. */
  lemma {:induction false} SnapshotHolds(reports: seq<Report>, key: string)
    requires AllLooked(reports)
    ensures IsBaselined(Snapshot(reports), key) <==> AnyViolates(reports, key)
  {
    hide ViolationKey, IsBaselined;
    NothingHeld(key);
    if reports != [] {
      var r, rest := reports[0], reports[1..];
      assert Looked(r);
      SnapshotHolds(rest, key);
      var here: Baseline := if r.violations == [] then [] else [(r.path, EntriesOf(r, 0))];
      FileHolds(r, key);
      BaselinedConcat(here, Snapshot(rest), key);
      if i :| 0 <= i < |rest| && Violates(rest[i], key) { assert reports[i + 1] == rest[i]; }
      if i :| 0 <= i < |reports| && Violates(reports[i], key) && i > 0 { assert rest[i - 1] == reports[i]; }
    }
  }

  lemma {:induction false} EntryAt(r: Report, i: nat, j: nat)
    requires Looked(r) && i <= j < |r.violations|
    ensures EntriesOf(r, i)[j - i] == Full(r.violations[j], r.fingerprints[r.violations[j]])
    ensures EntryKey(r.path, EntriesOf(r, i)[j - i]) == ViolationKey(r, j)
    decreases j - i
  {
    hide Key;
    if i < j { EntryAt(r, i + 1, j); }
  }

  lemma BaselinedConcat(a: Baseline, b: Baseline, key: string)
    ensures IsBaselined(a + b, key) <==> IsBaselined(a, key) || IsBaselined(b, key)
  {
    if i, j :| 0 <= i < |a + b| && 0 <= j < |(a + b)[i].1| && EntryKey((a + b)[i].0, (a + b)[i].1[j]) == key {
      if i < |a| { assert a[i] == (a + b)[i]; } else { assert b[i - |a|] == (a + b)[i]; }
    }
    if i, j :| 0 <= i < |a| && 0 <= j < |a[i].1| && EntryKey(a[i].0, a[i].1[j]) == key { assert (a + b)[i] == a[i]; }
    if i, j :| 0 <= i < |b| && 0 <= j < |b[i].1| && EntryKey(b[i].0, b[i].1[j]) == key {
      assert (a + b)[|a| + i] == b[i];
    }
  }

  // ----- what is new -----

  /** (path, message) is violation j of report i, and the baseline does not hold its key. */
  predicate IsNew(b: Baseline, reports: seq<Report>, v: (string, string), i: nat, j: nat) {
    && i < |reports| && Looked(reports[i]) && j < |reports[i].violations|
    && v == (reports[i].path, reports[i].violations[j]) && !IsBaselined(b, ViolationKey(reports[i], j))
  }

  lemma {:induction false} NewInAre(b: Baseline, r: Report, i: nat, v: (string, string)) returns (j: nat)
    requires Looked(r) && i <= |r.violations| && v in NewIn(b, r, i)
    ensures j < |r.violations| && v == (r.path, r.violations[j]) && !IsBaselined(b, ViolationKey(r, j))
    decreases |r.violations| - i
  {
    hide IsBaselined, ViolationKey;
    if !IsBaselined(b, ViolationKey(r, i)) && v == (r.path, r.violations[i]) {
      j := i;
    } else {
      j := NewInAre(b, r, i + 1, v);
    }
  }

  lemma {:induction false} NewOnesAre(b: Baseline, reports: seq<Report>, v: (string, string)) returns (i: nat, j: nat)
    requires AllLooked(reports) && v in NewOnes(b, reports)
    ensures IsNew(b, reports, v, i, j)
  {
    hide IsBaselined, ViolationKey;
    assert Looked(reports[0]);
    if v in NewIn(b, reports[0], 0) {
      i := 0;
      j := NewInAre(b, reports[0], 0, v);
    } else {
      i, j := NewOnesAre(b, reports[1..], v);
      i := i + 1;
    }
  }

  lemma {:induction false} NewInHas(b: Baseline, r: Report, i: nat, j: nat)
    requires Looked(r) && i <= j < |r.violations| && !IsBaselined(b, ViolationKey(r, j))
    ensures (r.path, r.violations[j]) in NewIn(b, r, i)
    decreases j - i
  {
    hide IsBaselined, ViolationKey;
    if i < j { NewInHas(b, r, i + 1, j); }
  }

  lemma {:induction false} NewOnesHas(b: Baseline, reports: seq<Report>, v: (string, string), i: nat, j: nat)
    requires AllLooked(reports) && IsNew(b, reports, v, i, j)
    ensures v in NewOnes(b, reports)
  {
    hide IsBaselined, ViolationKey;
    assert Looked(reports[0]);
    if i == 0 {
      NewInHas(b, reports[0], 0, j);
    } else {
      NewOnesHas(b, reports[1..], v, i - 1, j);
    }
  }

  /** The scan has this violation, and the scan that wrote the baseline had none under its key. */
  predicate IsUnseen(before: seq<Report>, after: seq<Report>, v: (string, string), i: nat, j: nat) {
    && i < |after| && Looked(after[i]) && j < |after[i].violations|
    && v == (after[i].path, after[i].violations[j]) && !AnyViolates(before, ViolationKey(after[i], j))
  }

  /**
   * A violation is reported exactly when some report has it and no report of the scan that wrote the baseline
   * has its key.
   */
  lemma NewIsExact(before: seq<Report>, after: seq<Report>, v: (string, string))
    requires AllLooked(before) && AllLooked(after)
    ensures v in NewOnes(Snapshot(before), after) <==>
            exists i: nat, j: nat :: IsUnseen(before, after, v, i, j)
  {
    hide AnyViolates, IsBaselined, ViolationKey, Snapshot;
    if v in NewOnes(Snapshot(before), after) {
      var i, j := NewOnesAre(Snapshot(before), after, v);
      SnapshotHolds(before, ViolationKey(after[i], j));
      assert IsUnseen(before, after, v, i, j);
    }
    if i: nat, j: nat :| IsUnseen(before, after, v, i, j) {
      SnapshotHolds(before, ViolationKey(after[i], j));
      NewOnesHas(Snapshot(before), after, v, i, j);
    }
  }

  lemma OwnKey(reports: seq<Report>, i: nat, j: nat)
    requires i < |reports| && Looked(reports[i]) && j < |reports[i].violations|
    ensures AnyViolates(reports, ViolationKey(reports[i], j))
  {
    hide ViolationKey;
    assert Violates(reports[i], ViolationKey(reports[i], j));
  }

  /** A baseline written from a scan silences that scan. */
  lemma RerunIsSilent(reports: seq<Report>)
    requires AllLooked(reports)
    ensures NewOnes(Snapshot(reports), reports) == []
  {
    hide IsBaselined, ViolationKey, Snapshot, NewOnes;
    var news := NewOnes(Snapshot(reports), reports);
    if news != [] {
      var i, j := NewOnesAre(Snapshot(reports), reports, news[0]);
      OwnKey(reports, i, j);
      SnapshotHolds(reports, ViolationKey(reports[i], j));
      assert false;
    }
  }
}
