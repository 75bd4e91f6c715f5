/** Code added to a file moves its comments to other lines; their violations keep their keys. */
module CommentMoves {
  import opened Options
  import opened Text
  import opened CommentScanner
  import opened CommentBlocks
  import opened CommentChecks
  import opened CommentRatchet

  // ----- scanning a text put together from parts -----

  function ModeAfter(lines: seq<string>, m: Mode, lang: Lang): Mode {
    if lines == [] then m else ModeAfter(lines[1..], Newline(After(lines[0], m, lang)), lang)
  }

  lemma {:induction false} BodiesOfConcat(a: seq<string>, b: seq<string>, m: Mode, lang: Lang)
    ensures Bodies(a + b, m, lang) == Bodies(a, m, lang) + Bodies(b, ModeAfter(a, m, lang), lang)
  {
    hide Pieces, After, Body;
    if a == [] {
      assert a + b == b;
    } else {
      assert (a + b)[1..] == a[1..] + b;
      BodiesOfConcat(a[1..], b, Newline(After(a[0], m, lang)), lang);
    }
  }

  /** Lines that carry no comment and leave the scanner as they found it. */
  predicate IsQuiet(lines: seq<string>, m: Mode, lang: Lang) {
    ModeAfter(lines, m, lang) == m && forall i :: 0 <= i < |lines| ==> Bodies(lines, m, lang)[i].None?
  }

  /** Where lines can go in without splitting a run of comment lines. */
  predicate IsGap(a: seq<string>, b: seq<string>, lang: Lang) {
    Apart(Bodies(a, Code, lang), Bodies(b, ModeAfter(a, Code, lang), lang))
  }

  lemma QuietIsApart(fa: seq<Option<string>>, fq: seq<Option<string>>, fb: seq<Option<string>>)
    requires Apart(fa, fb) && forall i :: 0 <= i < |fq| ==> fq[i].None?
    ensures Apart(fa, fq + fb) && Apart(fq, fb)
  {
    if fq == [] { assert fq + fb == fb; }
  }

  lemma BlocksAround(
    la: seq<string>, fa: seq<Option<string>>, lq: seq<string>, fq: seq<Option<string>>, lb: seq<string>,
      fb: seq<Option<string>>)
    requires |fa| == |la| && |fq| == |lq| && |fb| == |lb|
    requires Apart(fa, fb) && forall i :: 0 <= i < |fq| ==> fq[i].None?
    ensures Blocks(la + (lq + lb), fa + (fq + fb), 0) == Blocks(la, fa, 0) + Shift(Blocks(lb, fb, 0), |la| + |lq|)
  {
    hide Blocks, Shift, Apart;
    var after := Blocks(lb, fb, 0);
    NoBlocks(lq, fq, 0);
    QuietIsApart(fa, fq, fb);
    BlocksOfConcat(lq, fq, lb, fb, 0);
    assert [] + Shift(after, |lq|) == Shift(after, |lq|);
    BlocksOfConcat(la, fa, lq + lb, fq + fb, 0);
    ShiftTwice(after, |lq|, |la|);
  }

  /** Lines put in at a gap shift the blocks after it and leave those before it. */
  lemma BlocksAroundGap(a: seq<string>, quiet: seq<string>, b: seq<string>, lang: Lang)
    requires IsGap(a, b, lang) && IsQuiet(quiet, ModeAfter(a, Code, lang), lang)
    ensures var m := ModeAfter(a, Code, lang);
            FileBlocks(a + quiet + b, lang) ==
              FileBlocks(a, lang) + Shift(Blocks(b, Bodies(b, m, lang), 0), |a| + |quiet|)
  {
    hide Bodies, Blocks, Shift, ModeAfter, Apart;
    var m := ModeAfter(a, Code, lang);
    BodiesOfConcat(a, quiet + b, Code, lang);
    BodiesOfConcat(quiet, b, m, lang);
    assert a + quiet + b == a + (quiet + b);
    BlocksAround(a, Bodies(a, Code, lang), quiet, Bodies(quiet, m, lang), b, Bodies(b, m, lang));
  }

  lemma {:induction false} ShiftTwice(bs: seq<CommentBlock>, n: nat, m: nat)
    ensures Shift(Shift(bs, n), m) == Shift(bs, m + n)
  {
    if bs != [] { ShiftTwice(bs[1..], n, m); }
  }

  // ----- keys -----

  function KeysOf(path: string, e: seq<(string, string)>): seq<string> {
    if e == [] then [] else [Key(path, e[0].0, e[0].1)] + KeysOf(path, e[1..])
  }

  lemma {:induction false} KeysOfConcat(path: string, a: seq<(string, string)>, b: seq<(string, string)>)
    ensures KeysOf(path, a + b) == KeysOf(path, a) + KeysOf(path, b)
  {
    hide Key;
    if a == [] {
      assert a + b == b;
    } else {
      assert (a + b)[1..] == a[1..] + b;
      KeysOfConcat(path, a[1..], b);
    }
  }

  lemma {:induction false} TaggedKeys(path: string, line: nat, moved: nat, texts: seq<string>, f: string)
    ensures KeysOf(path, With(Tagged(line, texts), f)) == KeysOf(path, With(Tagged(moved, texts), f))
  {
    hide Stable, Message;
    if texts != [] {
      StableIsText(line, texts[0]);
      StableIsText(moved, texts[0]);
      TaggedKeys(path, line, moved, texts[1..], f);
    }
  }

  lemma {:induction false} FromLinesKeys(path: string, c: Check, b: CommentBlock, n: nat, k: nat, f: string)
    requires c.PerLine? && k <= |b.bodies|
    ensures KeysOf(path, With(FromLines(c, b, k), f)) == KeysOf(path, With(FromLines(c, ShiftBlock(b, n), k), f))
    decreases |b.bodies| - k
  {
    hide Tagged, With, KeysOf;
    if k < |b.bodies| {
      var texts := c.perLine(b.bodies, b.raw, k);
      var here, there := Tagged(b.startLine + k, texts), Tagged(b.startLine + n + k, texts);
      TaggedKeys(path, b.startLine + k, b.startLine + n + k, texts, f);
      FromLinesKeys(path, c, b, n, k + 1, f);
      WithConcat(here, FromLines(c, b, k + 1), f);
      WithConcat(there, FromLines(c, ShiftBlock(b, n), k + 1), f);
      KeysOfConcat(path, With(here, f), With(FromLines(c, b, k + 1), f));
      KeysOfConcat(path, With(there, f), With(FromLines(c, ShiftBlock(b, n), k + 1), f));
    }
  }

  lemma {:induction false} RecordedKeys(path: string, checks: seq<Check>, hash: seq<string> -> string,
      b: CommentBlock, n: nat)
    ensures KeysOf(path, Recorded(checks, hash, b)) == KeysOf(path, Recorded(checks, hash, ShiftBlock(b, n)))
  {
    hide Tagged, With, KeysOf, FromLines;
    if checks != [] {
      var c, moved, f := checks[0], ShiftBlock(b, n), hash(b.bodies);
      if c.Whole? {
        TaggedKeys(path, b.startLine, moved.startLine, c.whole(b.bodies, b.raw), f);
      } else {
        FromLinesKeys(path, c, b, n, 0, f);
      }
      RecordedKeys(path, checks[1..], hash, b, n);
      KeysOfConcat(path, With(Messages(c, b), f), Recorded(checks[1..], hash, b));
      KeysOfConcat(path, With(Messages(c, moved), f), Recorded(checks[1..], hash, moved));
    }
  }

  /** Moving every block to other lines keeps every key, in order. */
  lemma {:induction false} MovedKeys(path: string, rules: Rules, bs: seq<CommentBlock>, n: nat)
    ensures KeysOf(path, AllRecorded(rules, bs)) == KeysOf(path, AllRecorded(rules, Shift(bs, n)))
  {
    hide KeysOf, Recorded;
    if bs != [] {
      RecordedKeys(path, rules.checks, rules.hash, bs[0], n);
      MovedKeys(path, rules, bs[1..], n);
      KeysOfConcat(path, Recorded(rules.checks, rules.hash, bs[0]), AllRecorded(rules, bs[1..]));
      KeysOfConcat(path, Recorded(rules.checks, rules.hash, ShiftBlock(bs[0], n)),
        AllRecorded(rules, Shift(bs[1..], n)));
    }
  }

  lemma {:induction false} AllRecordedConcat(rules: Rules, a: seq<CommentBlock>, b: seq<CommentBlock>)
    ensures AllRecorded(rules, a + b) == AllRecorded(rules, a) + AllRecorded(rules, b)
  {
    hide Recorded;
    if a == [] {
      assert a + b == b;
    } else {
      assert (a + b)[1..] == a[1..] + b;
      AllRecordedConcat(rules, a[1..], b);
    }
  }

  /** The keys of a file's violations, the density one apart. */
  function CommentKeys(rules: Rules, path: string, lines: seq<string>, lang: Lang): seq<string> {
    KeysOf(path, AllRecorded(rules, FileBlocks(lines, lang)))
  }

  /**
   * Lines without comments put in anywhere that does not split a comment, and that leave the scanner as they
   * found it, keep the keys of all violations but the density one.
   */
  lemma InsertionKeepsKeys(rules: Rules, path: string, a: seq<string>, quiet: seq<string>, b: seq<string>, lang: Lang)
    requires IsGap(a, b, lang) && IsQuiet(quiet, ModeAfter(a, Code, lang), lang)
    ensures CommentKeys(rules, path, a + quiet + b, lang) == CommentKeys(rules, path, a + b, lang)
  {
    hide FileBlocks, Blocks, Bodies, KeysOf, AllRecorded, Apart;
    var m := ModeAfter(a, Code, lang);
    var before, after := FileBlocks(a, lang), Blocks(b, Bodies(b, m, lang), 0);
    BlocksAroundGap(a, quiet, b, lang);
    assert IsQuiet([], m, lang);
    BlocksAroundGap(a, [], b, lang);
    assert a + [] + b == a + b;
    AllRecordedConcat(rules, before, Shift(after, |a| + |quiet|));
    AllRecordedConcat(rules, before, Shift(after, |a|));
    KeysOfConcat(path, AllRecorded(rules, before), AllRecorded(rules, Shift(after, |a| + |quiet|)));
    KeysOfConcat(path, AllRecorded(rules, before), AllRecorded(rules, Shift(after, |a|)));
    MovedKeys(path, rules, after, |a| + |quiet|);
    MovedKeys(path, rules, after, |a|);
  }

  /** At the top of a file, after which nothing is open, any lines without comments may go in. */
  lemma PrependingKeepsKeys(rules: Rules, path: string, quiet: seq<string>, lines: seq<string>, lang: Lang)
    requires IsQuiet(quiet, Code, lang)
    ensures CommentKeys(rules, path, quiet + lines, lang) == CommentKeys(rules, path, lines, lang)
  {
    hide CommentKeys, IsQuiet;
    assert [] + quiet + lines == quiet + lines && [] + lines == lines;
    InsertionKeepsKeys(rules, path, [], quiet, lines, lang);
  }

  // ----- a whole repository -----

  /** A file with lines added between its head and its tail. */
  datatype Edit = Edit(path: string, lang: Lang, head: seq<string>, added: seq<string>, tail: seq<string>)

  predicate IsCodeOnly(e: Edit) {
    IsGap(e.head, e.tail, e.lang) && IsQuiet(e.added, ModeAfter(e.head, Code, e.lang), e.lang)
  }

  function Lines(e: Edit, edited: bool): seq<string> {
    if edited then e.head + e.added + e.tail else e.head + e.tail
  }

  predicate IsSkipped(rules: Rules, e: Edit, edited: bool) { IsGenerated(Lines(e, edited), rules.fold) }

  /** The report of a file; a generated one has no violations, which is as having no report. */
  function ReportOf(rules: Rules, e: Edit, edited: bool): (r: Report)
    ensures Looked(r) && (IsSkipped(rules, e, edited) ==> r.violations == [])
  {
    var entries := Entries(rules, Lines(e, edited), e.lang);
    Report(e.path, Firsts(entries), Lookup(entries))
  }

  function Scan(rules: Rules, edits: seq<Edit>, edited: bool): (reports: seq<Report>)
    ensures |reports| == |edits| && AllLooked(reports)
    ensures forall i :: 0 <= i < |edits| ==> reports[i] == ReportOf(rules, edits[i], edited)
  {
    seq(|edits|, i requires 0 <= i < |edits| => ReportOf(rules, edits[i], edited))
  }

  lemma {:induction false} KeyAt(path: string, e: seq<(string, string)>, j: nat)
    requires j < |e|
    ensures |KeysOf(path, e)| == |e| && KeysOf(path, e)[j] == Key(path, e[j].0, e[j].1)
  {
    hide Key;
    if j > 0 {
      KeyAt(path, e[1..], j - 1);
    } else if |e| > 1 {
      KeyAt(path, e[1..], 0);
    }
  }

  /** Each comment violation of a report has the key its comment gives it. */
  lemma ReportKey(rules: Rules, e: Edit, edited: bool, j: nat)
    requires j < |ReportOf(rules, e, edited).violations|
    ensures !IsSkipped(rules, e, edited)
    ensures j < |CommentKeys(rules, e.path, Lines(e, edited), e.lang)| ==>
              ViolationKey(ReportOf(rules, e, edited), j) == CommentKeys(rules, e.path, Lines(e, edited), e.lang)[j]
    ensures j >= |CommentKeys(rules, e.path, Lines(e, edited), e.lang)| ==>
            DENSITY <= ReportOf(rules, e, edited).violations[j]
  {
    hide Key, Lookup, FileBlocks, KeysOf, Bodies, AllRecorded, Count, IsGenerated;
    var lines := Lines(e, edited);
    var own := AllRecorded(rules, FileBlocks(lines, e.lang));
    LookupIsUnambiguous(rules, lines, e.lang);
    KeysHaveLength(e.path, own);
    if j < |own| { KeyAt(e.path, own, j); }
  }

  lemma {:induction false} KeysHaveLength(path: string, e: seq<(string, string)>)
    ensures |KeysOf(path, e)| == |e|
  {
    hide Key;
    if e != [] { KeysHaveLength(path, e[1..]); }
  }

  lemma ViolationsCoverKeys(rules: Rules, e: Edit, edited: bool)
    requires !IsSkipped(rules, e, edited)
    ensures |CommentKeys(rules, e.path, Lines(e, edited), e.lang)| <= |ReportOf(rules, e, edited).violations|
  {
    hide FileBlocks, KeysOf, Bodies, AllRecorded, Count, Lookup, IsGenerated;
    KeysHaveLength(e.path, AllRecorded(rules, FileBlocks(Lines(e, edited), e.lang)));
  }

  // ----- what an edit brings up -----

  /** The edit makes the linter look at a file it skipped: the marker was in the header before, and no longer is. */
  predicate Unmasks(rules: Rules, e: Edit) { IsSkipped(rules, e, false) && !IsSkipped(rules, e, true) }

  lemma MarkedConcat(a: seq<string>, b: seq<string>, n: int, fold: char -> char)
    ensures IsMarkedWithin(a + b, n, fold) <==> IsMarkedWithin(a, n, fold) || IsMarkedWithin(b, n - |a|, fold)
  {
    hide IsMarked;
    if i :| 0 <= i < n && i < |a| && IsMarked(a[i], fold) { assert (a + b)[i] == a[i]; }
    if i :| 0 <= i < n - |a| && i < |b| && IsMarked(b[i], fold) { assert (a + b)[|a| + i] == b[i]; }
    if i :| 0 <= i < n && i < |a + b| && IsMarked((a + b)[i], fold) {
      assert (a + b)[i] == if i < |a| then a[i] else b[i - |a|];
    }
  }

  /**
   * It does so exactly when the only marked lines of the header stand below the added ones, none of which is a marked
   * header line itself, and all are pushed past the header.
   */
  lemma UnmasksExactly(rules: Rules, e: Edit)
    ensures var below := HEADER_LINES - |e.head|;
            Unmasks(rules, e) <==>
            && IsMarkedWithin(e.tail, below, rules.fold) && !IsMarkedWithin(e.head, HEADER_LINES, rules.fold)
            && !IsMarkedWithin(e.added, below, rules.fold) && !IsMarkedWithin(e.tail, below - |e.added|, rules.fold)
  {
    hide IsMarkedWithin;
    MarkedConcat(e.head, e.tail, HEADER_LINES, rules.fold);
    MarkedConcat(e.head + e.added, e.tail, HEADER_LINES, rules.fold);
    MarkedConcat(e.head, e.added, HEADER_LINES, rules.fold);
  }

  /** A comment violation of an edited file that was looked at before was there before, under the same key. */
  lemma SeenStaysSeen(rules: Rules, e: Edit, j: nat)
    requires IsCodeOnly(e) && !IsSkipped(rules, e, false)
    requires j < |ReportOf(rules, e, true).violations| && !(DENSITY <= ReportOf(rules, e, true).violations[j])
    ensures Violates(ReportOf(rules, e, false), ViolationKey(ReportOf(rules, e, true), j))
  {
    hide ViolationKey, CommentKeys, ReportOf, IsGap, IsQuiet, IsSkipped;
    InsertionKeepsKeys(rules, e.path, e.head, e.added, e.tail, e.lang);
    ReportKey(rules, e, true, j);
    ViolationsCoverKeys(rules, e, false);
    ReportKey(rules, e, false, j);
  }

  /**
   * After comment-free lines are added to any files, a comment violation is one the baseline does not hold exactly
   * when the edit made the linter look at its file, and no other file's violation has its key.
   */
  lemma MovedIsUnseenExactly(rules: Rules, edits: seq<Edit>, i: nat, j: nat)
    requires forall k :: 0 <= k < |edits| ==> IsCodeOnly(edits[k])
    requires i < |edits| && j < |Scan(rules, edits, true)[i].violations|
    requires !(DENSITY <= Scan(rules, edits, true)[i].violations[j])
    ensures var before, key := Scan(rules, edits, false), ViolationKey(Scan(rules, edits, true)[i], j);
            !AnyViolates(before, key) <==>
            Unmasks(rules, edits[i]) && forall k :: 0 <= k < |edits| && k != i ==> !Violates(before[k], key)
  {
    hide ViolationKey, ReportOf, IsCodeOnly, IsSkipped;
    var before, key := Scan(rules, edits, false), ViolationKey(Scan(rules, edits, true)[i], j);
    ReportKey(rules, edits[i], true, j);
    if !IsSkipped(rules, edits[i], false) { SeenStaysSeen(rules, edits[i], j); }
    assert Violates(before[i], key) ==> AnyViolates(before, key);
  }

  /** Violation j of file i, which the edit made the linter look at, and whose key no other file's violation had. */
  predicate IsUncovered(rules: Rules, edits: seq<Edit>, v: (string, string), i: nat, j: nat) {
    && i < |edits| && Unmasks(rules, edits[i])
    && var before, r := Scan(rules, edits, false), ReportOf(rules, edits[i], true);
    && j < |r.violations| && v == (r.path, r.violations[j])
    && forall k :: 0 <= k < |edits| && k != i ==> !Violates(before[k], ViolationKey(r, j))
  }

  /** So what is reported as new, density apart, are exactly such violations. */
  lemma MovedIsNewExactly(rules: Rules, edits: seq<Edit>, v: (string, string))
    requires (forall i :: 0 <= i < |edits| ==> IsCodeOnly(edits[i])) && !(DENSITY <= v.1)
    ensures v in NewOnes(Snapshot(Scan(rules, edits, false)), Scan(rules, edits, true)) <==>
            exists i: nat, j: nat :: IsUncovered(rules, edits, v, i, j)
  {
    hide ViolationKey, Snapshot, NewOnes, ReportOf, IsCodeOnly, AnyViolates, Violates, Unmasks;
    var before, after := Scan(rules, edits, false), Scan(rules, edits, true);
    NewIsExact(before, after, v);
    if v in NewOnes(Snapshot(before), after) {
      var i: nat, j: nat :| IsUnseen(before, after, v, i, j);
      MovedIsUnseenExactly(rules, edits, i, j);
      assert IsUncovered(rules, edits, v, i, j);
    }
    if i: nat, j: nat :| IsUncovered(rules, edits, v, i, j) {
      MovedIsUnseenExactly(rules, edits, i, j);
      assert IsUnseen(before, after, v, i, j);
    }
  }

  /**
   * Where every file keeps being looked at or skipped, the ratchet does not see comments move: adding comment-free
   * lines to any number of files brings up no new violation but a file's density.
   */
  lemma MovedCommentsStaySilent(rules: Rules, edits: seq<Edit>, v: (string, string))
    requires forall i :: 0 <= i < |edits| ==> IsCodeOnly(edits[i]) && !Unmasks(rules, edits[i])
    requires v in NewOnes(Snapshot(Scan(rules, edits, false)), Scan(rules, edits, true))
    ensures DENSITY <= v.1
  {
    hide Snapshot, NewOnes, IsCodeOnly, Unmasks, Scan;
    if !(DENSITY <= v.1) { MovedIsNewExactly(rules, edits, v); }
  }

  // ----- paths without a colon -----

  /** One report a path, and no colon in a path or a fingerprint. */
  ghost predicate IsPlain(rules: Rules, edits: seq<Edit>) {
    && (forall i :: 0 <= i < |edits| ==> NoColon(edits[i].path))
    && (forall i, k :: 0 <= i < k < |edits| ==> edits[i].path != edits[k].path)
    && forall bodies :: NoColon(rules.hash(bodies))
  }

  predicate ArePlain(e: seq<(string, string)>) { forall i :: 0 <= i < |e| ==> NoColon(e[i].1) }

  lemma {:induction false} WithIsPlain(messages: seq<string>, f: string)
    requires NoColon(f)
    ensures ArePlain(With(messages, f))
  {
    hide NoColon;
    if messages != [] { WithIsPlain(messages[1..], f); }
  }

  lemma {:induction false} RecordedIsPlain(checks: seq<Check>, hash: seq<string> -> string, b: CommentBlock)
    requires NoColon(hash(b.bodies))
    ensures ArePlain(Recorded(checks, hash, b))
  {
    hide NoColon, With, Messages;
    if checks != [] {
      WithIsPlain(Messages(checks[0], b), hash(b.bodies));
      RecordedIsPlain(checks[1..], hash, b);
    }
  }

  lemma {:induction false} AllRecordedIsPlain(rules: Rules, bs: seq<CommentBlock>)
    requires forall bodies :: NoColon(rules.hash(bodies))
    ensures ArePlain(AllRecorded(rules, bs))
  {
    hide NoColon, Recorded;
    if bs != [] {
      RecordedIsPlain(rules.checks, rules.hash, bs[0]);
      AllRecordedIsPlain(rules, bs[1..]);
    }
  }

  /** Every violation of a report has a fingerprint without a colon. */
  lemma FingerprintIsPlain(rules: Rules, e: Edit, edited: bool, j: nat)
    requires forall bodies :: NoColon(rules.hash(bodies))
    requires j < |ReportOf(rules, e, edited).violations|
    ensures var r := ReportOf(rules, e, edited); NoColon(r.fingerprints[r.violations[j]])
  {
    hide NoColon, Lookup, FileBlocks, Bodies, AllRecorded, Count, IsGenerated;
    LookupIsUnambiguous(rules, Lines(e, edited), e.lang);
    AllRecordedIsPlain(rules, FileBlocks(Lines(e, edited), e.lang));
  }

  /** Violations of files at different paths have different keys. */
  lemma PathsTellApart(rules: Rules, edits: seq<Edit>, i: nat, j: nat, k: nat)
    requires IsPlain(rules, edits) && i < |edits| && k < |edits| && i != k
    requires j < |ReportOf(rules, edits[i], true).violations|
    ensures !Violates(ReportOf(rules, edits[k], false), ViolationKey(ReportOf(rules, edits[i], true), j))
  {
    hide NoColon, ReportOf, Key, Straddles, Stable;
    var r, other := ReportOf(rules, edits[i], true), ReportOf(rules, edits[k], false);
    FingerprintIsPlain(rules, edits[i], true, j);
    PathOfReport(rules, edits[i], true);
    PathOfReport(rules, edits[k], false);
    forall l | 0 <= l < |other.violations| ensures ViolationKey(other, l) != ViolationKey(r, j) {
      FingerprintIsPlain(rules, edits[k], false, l);
      var m, n := r.violations[j], other.violations[l];
      KeyIsExact(r.path, m, r.fingerprints[m], other.path, n, other.fingerprints[n]);
      PlainPathsNeverStraddle(r.path, Stable(m), other.path, Stable(n));
      PlainPathsNeverStraddle(other.path, Stable(n), r.path, Stable(m));
    }
  }

  lemma PathOfReport(rules: Rules, e: Edit, edited: bool)
    ensures ReportOf(rules, e, edited).path == e.path
  {
  }

  /** A violation of a file that the edit made the linter look at. */
  predicate IsUnmasked(rules: Rules, edits: seq<Edit>, v: (string, string), i: nat, j: nat) {
    && i < |edits| && Unmasks(rules, edits[i])
    && var r := ReportOf(rules, edits[i], true); j < |r.violations| && v == (r.path, r.violations[j])
  }

  /** Among such paths every comment violation of an unmasked file is new, and no other is. */
  lemma UnmaskedIsNewExactly(rules: Rules, edits: seq<Edit>, v: (string, string))
    requires (forall i :: 0 <= i < |edits| ==> IsCodeOnly(edits[i])) && IsPlain(rules, edits) && !(DENSITY <= v.1)
    ensures v in NewOnes(Snapshot(Scan(rules, edits, false)), Scan(rules, edits, true)) <==>
            exists i: nat, j: nat :: IsUnmasked(rules, edits, v, i, j)
  {
    hide Snapshot, NewOnes, IsCodeOnly, Unmasks, ReportOf, ViolationKey, Violates, IsPlain;
    MovedIsNewExactly(rules, edits, v);
    if i: nat, j: nat :| IsUncovered(rules, edits, v, i, j) { assert IsUnmasked(rules, edits, v, i, j); }
    if i: nat, j: nat :| IsUnmasked(rules, edits, v, i, j) {
      forall k | 0 <= k < |edits| && k != i
        ensures !Violates(Scan(rules, edits, false)[k], ViolationKey(ReportOf(rules, edits[i], true), j))
      {
        PathsTellApart(rules, edits, i, j, k);
      }
      assert IsUncovered(rules, edits, v, i, j);
    }
  }
}
