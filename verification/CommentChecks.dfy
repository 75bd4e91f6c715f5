/** What a scan of one file reports: messages with line numbers, and the comment each one is about. */
module CommentChecks {
  import opened Options
  import opened Text
  import opened CommentScanner
  import opened CommentBlocks

  // ----- messages -----

  function Digit(d: nat): char
    requires d < 10
  {
    '0' + (d as char)
  }

  predicate IsDigit(c: char) { '0' <= c <= '9' }

  function Digits(n: nat): (s: string)
    ensures s != ""
    ensures forall i :: 0 <= i < |s| ==> IsDigit(s[i])
  {
    if n < 10 then [Digit(n)] else Digits(n / 10) + [Digit(n % 10)]
  }

  function Message(line: nat, text: string): string { "L" + Digits(line) + ": " + text }

  function DigitRun(s: string): (k: nat)
    ensures k <= |s|
  {
    if s == "" || !IsDigit(s[0]) then 0 else 1 + DigitRun(s[1..])
  }

  /** The message without its line number. */
  function Stable(message: string): string {
    if message == "" || message[0] != 'L' then message
    else
      var k := DigitRun(message[1..]);
      if k > 0 && ": " <= message[1 + k..] then message[k + 3..] else message
  }

  lemma {:induction false} DigitsDiffer(n: nat, m: nat)
    requires Digits(n) == Digits(m)
    ensures n == m
    decreases n + m
  {
    var s, t := Digits(n), Digits(m);
    assert s[|s| - 1] == Digit(n % 10) && t[|t| - 1] == Digit(m % 10);
    if n >= 10 && m >= 10 {
      assert s[..|s| - 1] == Digits(n / 10) && t[..|t| - 1] == Digits(m / 10);
      DigitsDiffer(n / 10, m / 10);
    }
  }

  lemma {:induction false} DigitRunIs(digits: string, rest: string)
    requires (forall i :: 0 <= i < |digits| ==> IsDigit(digits[i])) && rest != "" && !IsDigit(rest[0])
    ensures DigitRun(digits + rest) == |digits|
  {
    if digits == "" {
      assert digits + rest == rest;
    } else {
      assert (digits + rest)[1..] == digits[1..] + rest;
      DigitRunIs(digits[1..], rest);
    }
  }

  lemma MessageParts(line: nat, text: string)
    ensures var m := Message(line, text);
            m[0] == 'L' && DigitRun(m[1..]) == |Digits(line)| && m[1..1 + |Digits(line)|] == Digits(line) &&
              m[|Digits(line)| + 3..] == text
  {
    var m := Message(line, text);
    DigitRunIs(Digits(line), ": " + text);
    assert m[1..] == Digits(line) + (": " + text);
  }

  lemma StableIsText(line: nat, text: string)
    ensures Stable(Message(line, text)) == text
  {
    MessageParts(line, text);
    var m := Message(line, text);
    assert m[1 + |Digits(line)|..] == ": " + text;
  }

  lemma MessageIsExact(n: nat, text: string, m: nat, other: string)
    requires Message(n, text) == Message(m, other)
    ensures n == m && text == other
  {
    MessageParts(n, text);
    MessageParts(m, other);
    DigitsDiffer(n, m);
  }

  // ----- checks -----

  /** A check reads a block's comment text and raw lines, as a whole or line by line, and returns message texts. */
  datatype Check =
    | Whole(whole: (seq<string>, seq<string>) -> seq<string>)
    | PerLine(perLine: (seq<string>, seq<string>, nat) -> seq<string>)

  /** `fold` is the letter case a generated marker is read without. */
  datatype Rules = Rules(
    checks: seq<Check>,
    hash: seq<string> -> string,
    minLines: Lang -> nat,
    maxDensity: Lang -> real,
    density: (Lang, nat, nat) -> string,
    fold: char -> char)

  function Tagged(line: nat, texts: seq<string>): seq<string> {
    if texts == [] then [] else [Message(line, texts[0])] + Tagged(line, texts[1..])
  }

  function FromLines(c: Check, b: CommentBlock, k: nat): seq<string>
    requires c.PerLine? && k <= |b.bodies|
    decreases |b.bodies| - k
  {
    if k == |b.bodies| then []
    else Tagged(b.startLine + k, c.perLine(b.bodies, b.raw, k)) + FromLines(c, b, k + 1)
  }

  function Messages(c: Check, b: CommentBlock): seq<string> {
    if c.Whole? then Tagged(b.startLine, c.whole(b.bodies, b.raw)) else FromLines(c, b, 0)
  }

  /** Each message with the fingerprint of the comment it is about. */
  function With(messages: seq<string>, fingerprint: string): (e: seq<(string, string)>)
    ensures |e| == |messages|
  {
    if messages == [] then [] else [(messages[0], fingerprint)] + With(messages[1..], fingerprint)
  }

  function Recorded(checks: seq<Check>, hash: seq<string> -> string, b: CommentBlock): seq<(string, string)> {
    if checks == [] then []
    else With(Messages(checks[0], b), hash(b.bodies)) + Recorded(checks[1..], hash, b)
  }

  function AllRecorded(rules: Rules, bs: seq<CommentBlock>): seq<(string, string)> {
    if bs == [] then [] else Recorded(rules.checks, rules.hash, bs[0]) + AllRecorded(rules, bs[1..])
  }

  function AllBodies(bs: seq<CommentBlock>): seq<string> {
    if bs == [] then [] else bs[0].bodies + AllBodies(bs[1..])
  }

  const DENSITY := "density: "

  function DensityRecorded(
    rules: Rules, lang: Lang, bs: seq<CommentBlock>, count: nat, total: nat): seq<(string, string)>
  {
    if total >= rules.minLines(lang) && total > 0 && (count as real) / (total as real) > rules.maxDensity(lang)
    then [(DENSITY + rules.density(lang, count, total), rules.hash(AllBodies(bs)))] else []
  }

  function FileBlocks(lines: seq<string>, lang: Lang): seq<CommentBlock> {
    Blocks(lines, Bodies(lines, Code, lang), 0)
  }

  // ----- generated files -----

  const MARKERS := ["Code generated by", "DO NOT EDIT", "@generated", "FROZEN REFERENCE FIXTURE"]
  const HEADER_LINES := 8

  /** The phrase stands at this place of the line, letter case apart. */
  predicate ReadsAt(line: string, at: nat, phrase: string, fold: char -> char) {
    at + |phrase| <= |line| && forall k :: 0 <= k < |phrase| ==> fold(line[at + k]) == fold(phrase[k])
  }

  /** A marker within the first four characters' reach of the line. */
  predicate IsMarked(line: string, fold: char -> char) {
    exists at, m :: 0 <= at <= 4 && 0 <= m < |MARKERS| && ReadsAt(line, at, MARKERS[m], fold)
  }

  /** One of the first n lines carries a marker. */
  predicate IsMarkedWithin(lines: seq<string>, n: int, fold: char -> char) {
    exists i :: 0 <= i < n && i < |lines| && IsMarked(lines[i], fold)
  }

  /** One of the first eight does: the file is not looked at. */
  predicate IsGenerated(lines: seq<string>, fold: char -> char) { IsMarkedWithin(lines, HEADER_LINES, fold) }

  // ----- a file -----

  /** Everything the scan of a file that is looked at records, in order. */
  function Findings(rules: Rules, lines: seq<string>, lang: Lang): seq<(string, string)> {
    var bs := FileBlocks(lines, lang);
    AllRecorded(rules, bs) + DensityRecorded(rules, lang, bs, Count(Bodies(lines, Code, lang)), |lines|)
  }

  /** Everything a file adds to a scan: nothing when it is generated. */
  function Entries(rules: Rules, lines: seq<string>, lang: Lang): seq<(string, string)> {
    if IsGenerated(lines, rules.fold) then [] else Findings(rules, lines, lang)
  }

  function Firsts(e: seq<(string, string)>): (m: seq<string>)
    ensures |m| == |e|
  {
    seq(|e|, i requires 0 <= i < |e| => e[i].0)
  }

  /** The dictionary the entries fill, a later one overwriting an earlier one. */
  function Lookup(e: seq<(string, string)>): (f: map<string, string>)
    ensures forall i :: 0 <= i < |e| ==> e[i].0 in f
  {
    if e == [] then map[] else Lookup(e[..|e| - 1])[e[|e| - 1].0 := e[|e| - 1].1]
  }

  // ----- the dictionary is exact -----

  /** An entry about block k, on one of its lines. */
  predicate IsAbout(rules: Rules, bs: seq<CommentBlock>, e: (string, string), k: nat, line: nat, text: string) {
    k < |bs| && bs[k].startLine <= line < bs[k].startLine + |bs[k].bodies| &&
      e == (Message(line, text), rules.hash(bs[k].bodies))
  }

  lemma {:induction false} TaggedAre(line: nat, texts: seq<string>, i: nat)
    requires i < |Tagged(line, texts)|
    ensures exists text :: Tagged(line, texts)[i] == Message(line, text)
  {
    if i > 0 { TaggedAre(line, texts[1..], i - 1); }
  }

  lemma {:induction false} FromLinesAre(c: Check, b: CommentBlock, k: nat, i: nat)
    requires c.PerLine? && k <= |b.bodies| && i < |FromLines(c, b, k)|
    ensures exists line: nat, text ::
              b.startLine <= line < b.startLine + |b.bodies| && FromLines(c, b, k)[i] == Message(line, text)
    decreases |b.bodies| - k
  {
    var here := Tagged(b.startLine + k, c.perLine(b.bodies, b.raw, k));
    if i < |here| {
      TaggedAre(b.startLine + k, c.perLine(b.bodies, b.raw, k), i);
      var text :| here[i] == Message(b.startLine + k, text);
      var line := b.startLine + k;
      assert FromLines(c, b, k)[i] == Message(line, text);
    } else {
      FromLinesAre(c, b, k + 1, i - |here|);
      var line: nat, text :| b.startLine <= line < b.startLine + |b.bodies| &&
        FromLines(c, b, k + 1)[i - |here|] == Message(line, text);
      assert FromLines(c, b, k)[i] == Message(line, text);
    }
  }

  lemma MessagesAre(c: Check, b: CommentBlock, i: nat)
    requires i < |Messages(c, b)| && b.bodies != []
    ensures exists line: nat, text ::
              b.startLine <= line < b.startLine + |b.bodies| && Messages(c, b)[i] == Message(line, text)
  {
    if c.Whole? {
      TaggedAre(b.startLine, c.whole(b.bodies, b.raw), i);
      var text :| Tagged(b.startLine, c.whole(b.bodies, b.raw))[i] == Message(b.startLine, text);
    } else {
      FromLinesAre(c, b, 0, i);
    }
  }

  lemma {:induction false} WithAt(messages: seq<string>, fingerprint: string, i: nat)
    requires i < |messages|
    ensures With(messages, fingerprint)[i] == (messages[i], fingerprint)
  {
    if i > 0 { WithAt(messages[1..], fingerprint, i - 1); }
  }

  lemma {:induction false} RecordedAre(checks: seq<Check>, hash: seq<string> -> string, b: CommentBlock, i: nat)
    requires i < |Recorded(checks, hash, b)| && b.bodies != []
    ensures exists line: nat, text ::
              b.startLine <= line < b.startLine + |b.bodies| &&
              Recorded(checks, hash, b)[i] == (Message(line, text), hash(b.bodies))
  {
    var here := With(Messages(checks[0], b), hash(b.bodies));
    if i < |here| {
      MessagesAre(checks[0], b, i);
      var line: nat, text :| b.startLine <= line < b.startLine + |b.bodies| &&
        Messages(checks[0], b)[i] == Message(line, text);
      WithAt(Messages(checks[0], b), hash(b.bodies), i);
      assert Recorded(checks, hash, b)[i] == (Message(line, text), hash(b.bodies));
    } else {
      RecordedAre(checks[1..], hash, b, i - |here|);
      var line: nat, text :| b.startLine <= line < b.startLine + |b.bodies| &&
        Recorded(checks[1..], hash, b)[i - |here|] == (Message(line, text), hash(b.bodies));
      assert Recorded(checks, hash, b)[i] == (Message(line, text), hash(b.bodies));
    }
  }

  lemma {:induction false} AllRecordedAre(rules: Rules, bs: seq<CommentBlock>, i: nat)
      returns (k: nat, line: nat, text: string)
    requires i < |AllRecorded(rules, bs)| && forall x :: 0 <= x < |bs| ==> bs[x].bodies != []
    ensures IsAbout(rules, bs, AllRecorded(rules, bs)[i], k, line, text)
  {
    var here := Recorded(rules.checks, rules.hash, bs[0]);
    if i < |here| {
      RecordedAre(rules.checks, rules.hash, bs[0], i);
      line, text :| bs[0].startLine <= line < bs[0].startLine + |bs[0].bodies| &&
        here[i] == (Message(line, text), rules.hash(bs[0].bodies));
      k := 0;
    } else {
      k, line, text := AllRecordedAre(rules, bs[1..], i - |here|);
      k := k + 1;
    }
  }

  /** Equal messages are about the same comment. */
  predicate IsConsistent(e: seq<(string, string)>) {
    forall i, j :: 0 <= i < |e| && 0 <= j < |e| && e[i].0 == e[j].0 ==> e[i].1 == e[j].1
  }

  lemma {:induction false} ConsistentLookup(e: seq<(string, string)>, i: nat)
    requires IsConsistent(e) && i < |e|
    ensures Lookup(e)[e[i].0] == e[i].1
  {
    var n := |e| - 1;
    if e[i].0 != e[n].0 { ConsistentLookup(e[..n], i); }
  }

  /** Every message looks up the fingerprint of the comment it is about, because no two blocks share a line. */
  lemma LookupIsUnambiguous(rules: Rules, lines: seq<string>, lang: Lang)
    ensures var e := Entries(rules, lines, lang);
            forall i :: 0 <= i < |e| ==> Lookup(e)[e[i].0] == e[i].1
  {
    hide Lookup, Message, Blocks, Bodies, Recorded, Count, AllRecorded, IsGenerated;
    var found := Bodies(lines, Code, lang);
    var bs := FileBlocks(lines, lang);
    var e, n := Findings(rules, lines, lang), |AllRecorded(rules, bs)|;
    BlocksAreMaximalRuns(lines, found);
    BlocksHaveLines(lines, found, bs);
    forall i, j | 0 <= i < |e| && 0 <= j < |e| && e[i].0 == e[j].0 ensures e[i].1 == e[j].1 {
      if i < n && j < n {
        SameBlock(rules, bs, i, j);
      } else if i < n || j < n {
        DensityIsApart(rules, bs, if i < n then i else j, e[n].0);
      }
    }
    forall i | 0 <= i < |e| ensures Lookup(e)[e[i].0] == e[i].1 { ConsistentLookup(e, i); }
  }

  lemma BlocksHaveLines(lines: seq<string>, found: seq<Option<string>>, bs: seq<CommentBlock>)
    requires |found| == |lines| && AreBlocks(lines, found, bs)
    ensures forall x :: 0 <= x < |bs| ==> |bs[x].bodies| == bs[x].endLine - bs[x].startLine + 1 && bs[x].bodies != []
  {
    forall x | 0 <= x < |bs| ensures |bs[x].bodies| == bs[x].endLine - bs[x].startLine + 1 && bs[x].bodies != [] {
      assert IsBlock(lines, found, bs[x]);
    }
  }

  lemma SameBlock(rules: Rules, bs: seq<CommentBlock>, i: nat, j: nat)
    requires Ordered(bs, 0) && forall x :: 0 <= x < |bs| ==>
             |bs[x].bodies| == bs[x].endLine - bs[x].startLine + 1 && bs[x].bodies != []
    requires i < |AllRecorded(rules, bs)| && j < |AllRecorded(rules, bs)|
    requires AllRecorded(rules, bs)[i].0 == AllRecorded(rules, bs)[j].0
    ensures AllRecorded(rules, bs)[i].1 == AllRecorded(rules, bs)[j].1
  {
    hide AllRecorded, Message;
    var k, line, text := AllRecordedAre(rules, bs, i);
    var l, other, t := AllRecordedAre(rules, bs, j);
    MessageIsExact(line, text, other, t);
    assert k == l;
  }

  lemma DensityIsApart(rules: Rules, bs: seq<CommentBlock>, i: nat, message: string)
    requires i < |AllRecorded(rules, bs)| && forall x :: 0 <= x < |bs| ==> bs[x].bodies != []
    requires DENSITY <= message
    ensures AllRecorded(rules, bs)[i].0 != message
  {
    hide AllRecorded;
    var k, line, text := AllRecordedAre(rules, bs, i);
    assert message[0] == DENSITY[0] == 'd';
    assert Message(line, text)[0] == 'L';
  }

  // ----- the loops -----

  lemma NextBody(c: Check, b: CommentBlock, k: nat)
    requires c.PerLine? && k < |b.bodies|
    ensures FromLines(c, b, k) == Tagged(b.startLine + k, c.perLine(b.bodies, b.raw, k)) + FromLines(c, b, k + 1)
  {
  }

  lemma NothingLeft(c: Check, b: CommentBlock)
    requires c.PerLine?
    ensures FromLines(c, b, |b.bodies|) == []
  {
  }

  method RunCheck(c: Check, b: CommentBlock) returns (messages: seq<string>)
    ensures messages == Messages(c, b)
  {
    hide Tagged, FromLines;
    if c.Whole? {
      return Tagged(b.startLine, c.whole(b.bodies, b.raw));
    }
    messages := [];
    NothingLeft(c, b);
    for k := 0 to |b.bodies|
      invariant messages + FromLines(c, b, k) == FromLines(c, b, 0)
    {
      NextBody(c, b, k);
      var here := Tagged(b.startLine + k, c.perLine(b.bodies, b.raw, k));
      Regrouped(messages, here, FromLines(c, b, k + 1));
      messages := messages + here;
    }
  }

  lemma Regrouped<T>(a: seq<T>, b: seq<T>, c: seq<T>)
    ensures a + (b + c) == a + b + c
  {
  }

  class FileReport {
    const path: string
    var violations: seq<string>
    var fingerprints: map<string, string>
    /** All (message, fingerprint) pairs recorded so far. */
    ghost var log: seq<(string, string)>

    ghost predicate Valid()
      reads this
    {
      violations == Firsts(log) && fingerprints == Lookup(log)
    }

    constructor (path: string)
      ensures Valid() && log == [] && this.path == path
    {
      this.path := path;
      violations, fingerprints, log := [], map[], [];
    }

    method Record(messages: seq<string>, fingerprint: string)
      requires Valid()
      modifies this
      ensures Valid() && log == old(log) + With(messages, fingerprint)
    {
      hide With, Firsts, Lookup;
      FirstsWith(log, messages, fingerprint);
      violations := violations + messages;
      WithNone(fingerprint);
      assert messages[..0] == [];
      for i := 0 to |messages|
        invariant violations == old(violations) + messages
        invariant fingerprints == Lookup(log) && log == old(log) + With(messages[..i], fingerprint)
      {
        fingerprints := fingerprints[messages[i] := fingerprint];
        assert messages[..i + 1] == messages[..i] + [messages[i]];
        WithConcat(messages[..i], [messages[i]], fingerprint);
        WithOne(messages[i], fingerprint);
        LookupPush(log, messages[i], fingerprint);
        log := log + [(messages[i], fingerprint)];
      }
      assert messages[..|messages|] == messages;
    }
  }

  lemma WithNone(fingerprint: string)
    ensures With([], fingerprint) == []
  {
  }

  lemma FirstsWith(log: seq<(string, string)>, messages: seq<string>, fingerprint: string)
    ensures Firsts(log + With(messages, fingerprint)) == Firsts(log) + messages
  {
    forall i | 0 <= i < |messages| ensures With(messages, fingerprint)[i].0 == messages[i] {
      WithAt(messages, fingerprint, i);
    }
  }

  lemma LookupPush(log: seq<(string, string)>, message: string, fingerprint: string)
    ensures Lookup(log + [(message, fingerprint)]) == Lookup(log)[message := fingerprint]
  {
    assert (log + [(message, fingerprint)])[..|log|] == log;
  }

  lemma {:induction false} WithConcat(a: seq<string>, b: seq<string>, fingerprint: string)
    ensures With(a + b, fingerprint) == With(a, fingerprint) + With(b, fingerprint)
  {
    if a == [] {
      assert a + b == b;
    } else {
      assert (a + b)[1..] == a[1..] + b;
      WithConcat(a[1..], b, fingerprint);
    }
  }

  lemma WithOne(message: string, fingerprint: string)
    ensures With([message], fingerprint) == [(message, fingerprint)]
  {
  }

  method CheckBlock(rules: Rules, b: CommentBlock, report: FileReport)
    requires report.Valid()
    modifies report
    ensures report.Valid() && report.log == old(report.log) + Recorded(rules.checks, rules.hash, b)
  {
    hide With, Messages, Lookup, Firsts, FileReport.Valid;
    for j := 0 to |rules.checks|
      invariant report.Valid()
      invariant report.log + Recorded(rules.checks[j..], rules.hash, b) ==
                old(report.log) + Recorded(rules.checks, rules.hash, b)
    {
      assert rules.checks[j..][1..] == rules.checks[j + 1..];
      var messages := RunCheck(rules.checks[j], b);
      report.Record(messages, rules.hash(b.bodies));
    }
    assert rules.checks[|rules.checks|..] == [];
  }

  lemma NextBlock(rules: Rules, blocks: seq<CommentBlock>, i: nat)
    requires i < |blocks|
    ensures AllRecorded(rules, blocks[i..]) ==
            Recorded(rules.checks, rules.hash, blocks[i]) + AllRecorded(rules, blocks[i + 1..])
    ensures AllBodies(blocks[i..]) == blocks[i].bodies + AllBodies(blocks[i + 1..])
  {
    assert blocks[i..][1..] == blocks[i + 1..];
  }

  lemma NothingRecorded(rules: Rules)
    ensures AllRecorded(rules, []) == [] && AllBodies([]) == []
  {
  }

  /** A generated file gets no report. */
  method AnalyzeFile(rules: Rules, path: string, lines: seq<string>, lang: Lang) returns (result: FileReport?)
    ensures result == null <==> IsGenerated(lines, rules.fold)
    ensures result != null ==>
              fresh(result) && result.Valid() && result.path == path && result.log == Entries(rules, lines, lang)
  {
    hide With, Lookup, Blocks, Bodies, Count, Firsts, FileReport.Valid, Recorded, IsGenerated, AllRecorded, AllBodies;
    if IsGenerated(lines, rules.fold) {
      return null;
    }
    var blocks, commentLines := ExtractBlocks(lines, lang);
    var total := |lines|;
    var report := new FileReport(path);
    var all: seq<string> := [];
    for i := 0 to |blocks|
      invariant fresh(report) && report.Valid() && report.path == path
      invariant report.log + AllRecorded(rules, blocks[i..]) == AllRecorded(rules, blocks)
      invariant all + AllBodies(blocks[i..]) == AllBodies(blocks)
    {
      NextBlock(rules, blocks, i);
      Regrouped(all, blocks[i].bodies, AllBodies(blocks[i + 1..]));
      CheckBlock(rules, blocks[i], report);
      all := all + blocks[i].bodies;
    }
    NothingRecorded(rules);
    assert blocks[|blocks|..] == [];
    assert report.log == AllRecorded(rules, blocks) && all == AllBodies(blocks);
    assert blocks == FileBlocks(lines, lang);
    if total >= rules.minLines(lang) && total > 0 &&
      (commentLines as real) / (total as real) > rules.maxDensity(lang) {
      var message := DENSITY + rules.density(lang, commentLines, total);
      WithOne(message, rules.hash(all));
      report.Record([message], rules.hash(all));
    }
    assert report.log == AllRecorded(rules, blocks) + DensityRecorded(rules, lang, blocks, commentLines, total);
    return report;
  }
}
