/** Grouping the comment lines of a file into blocks. */
module CommentBlocks {
  import opened Options
  import opened Text
  import opened CommentScanner

  /** `raw` is the source text of the block's lines, `bodies` the comment text found on them. */
  datatype CommentBlock = CommentBlock(startLine: nat, endLine: nat, length: nat, bodies: seq<string>, raw: seq<string>)

  /** One past the last line of the run of comment lines that `i` is in. */
  function RunEnd(found: seq<Option<string>>, i: nat): (j: nat)
    requires i <= |found|
    ensures i <= j <= |found| && (j < |found| ==> found[j].None?)
    ensures forall x :: i <= x < j ==> found[x].Some?
    decreases |found| - i
  {
    if i == |found| || found[i].None? then i else RunEnd(found, i + 1)
  }

  function Texts(found: seq<Option<string>>): (t: seq<string>)
    ensures |t| == |found|
  {
    seq(|found|, i requires 0 <= i < |found| => if found[i].Some? then found[i].value else "")
  }

  /** The block a run makes: nothing when all its lines are blank. */
  function BlockOf(lines: seq<string>, found: seq<Option<string>>, i: nat, j: nat): (b: seq<CommentBlock>)
    requires i <= j <= |found| == |lines|
  {
    var raw := TrimBack(lines[i..j]);
    if raw == [] then []
    else [CommentBlock(i + 1, i + |raw|, |raw|, Texts(found[i..i + |raw|]), raw)]
  }

  function Blocks(lines: seq<string>, found: seq<Option<string>>, i: nat): (bs: seq<CommentBlock>)
    requires i <= |found| == |lines|
    decreases |found| - i
  {
    if i == |found| then []
    else if found[i].None? then Blocks(lines, found, i + 1)
    else BlockOf(lines, found, i, RunEnd(found, i)) + Blocks(lines, found, RunEnd(found, i))
  }

  function Count(found: seq<Option<string>>): nat {
    if found == [] then 0 else (if found[0].Some? then 1 else 0) + Count(found[1..])
  }

  // ----- blocks are the maximal runs -----

  predicate IsMaximalRun(found: seq<Option<string>>, i: nat, j: nat) {
    && i < j <= |found|
    && (forall x :: i <= x < j ==> found[x].Some?)
    && (i == 0 || found[i - 1].None?) && (j == |found| || found[j].None?)
  }

  predicate AllBlank(lines: seq<string>) { forall x :: 0 <= x < |lines| ==> IsBlank(lines[x]) }

  /** A block is a whole maximal run, less the blank lines at its end. */
  predicate IsBlock(lines: seq<string>, found: seq<Option<string>>, b: CommentBlock)
    requires |found| == |lines|
  {
    && 1 <= b.startLine <= b.endLine <= |lines|
    && b.length == b.endLine - b.startLine + 1 == |b.bodies|
    && b.raw == lines[b.startLine - 1..b.endLine]
    && (forall x :: 0 <= x < b.length ==> found[b.startLine - 1 + x] == Some(b.bodies[x]))
    && !IsBlank(lines[b.endLine - 1])
    && IsMaximalRun(found, b.startLine - 1, RunEnd(found, b.startLine - 1))
    && b.endLine <= RunEnd(found, b.startLine - 1)
    && AllBlank(lines[b.endLine..RunEnd(found, b.startLine - 1)])
  }

  /** In order after line `from`, with an unmarked line between any two. */
  predicate Ordered(bs: seq<CommentBlock>, from: nat) {
    && (forall k :: 0 <= k < |bs| ==> from < bs[k].startLine <= bs[k].endLine)
    && (forall k, l :: 0 <= k < l < |bs| ==> bs[k].endLine + 1 < bs[l].startLine)
  }

  predicate AreBlocks(lines: seq<string>, found: seq<Option<string>>, bs: seq<CommentBlock>)
    requires |found| == |lines|
  {
    forall k :: 0 <= k < |bs| ==> IsBlock(lines, found, bs[k])
  }

  predicate IsProseRun(lines: seq<string>, found: seq<Option<string>>, p: nat, q: nat)
    requires |found| == |lines|
  {
    IsMaximalRun(found, p, q) && !AllBlank(lines[p..q])
  }

  predicate Starts(bs: seq<CommentBlock>, line: nat) {
    exists k :: 0 <= k < |bs| && bs[k].startLine == line
  }

  lemma BlockOfRun(lines: seq<string>, found: seq<Option<string>>, i: nat, j: nat)
    requires |found| == |lines| && IsMaximalRun(found, i, j) && j == RunEnd(found, i)
    ensures |BlockOf(lines, found, i, j)| <= 1
    ensures BlockOf(lines, found, i, j) == [] <==> AllBlank(lines[i..j])
    ensures var bs := BlockOf(lines, found, i, j);
            bs != [] ==> bs[0].startLine == i + 1 && bs[0].endLine <= j && IsBlock(lines, found, bs[0])
  {
    hide IsBlank, RunEnd, TrimBack;
    var run := lines[i..j];
    var raw := TrimBack(run);
    TrimBackIs(run);
    if raw != [] {
      var n := i + |raw|;
      assert raw == lines[i..n] && lines[n - 1] == run[|raw| - 1];
      var tail := lines[n..j];
      assert forall x :: 0 <= x < |tail| ==> tail[x] == run[|raw| + x];
    }
  }

  lemma NoneOrdered(from: nat)
    ensures Ordered([], from)
  {
  }

  lemma OrderedFrom(bs: seq<CommentBlock>, later: nat, from: nat)
    requires Ordered(bs, later) && from <= later
    ensures Ordered(bs, from)
  {
  }

  /** From a place where no run is under way: blocks of the runs after it, in order. */
  lemma {:induction false} BlocksFrom(lines: seq<string>, found: seq<Option<string>>, i: nat)
    requires i <= |found| == |lines| && (i == 0 || i == |found| || found[i].None? || found[i - 1].None?)
    ensures AreBlocks(lines, found, Blocks(lines, found, i)) && Ordered(Blocks(lines, found, i), i)
    decreases |found| - i
  {
    hide IsBlock, BlockOf, Ordered;
    if i == |found| {
      NoneOrdered(i);
    } else if found[i].None? {
      BlocksFrom(lines, found, i + 1);
      OrderedFrom(Blocks(lines, found, i + 1), i + 1, i);
    } else {
      var j := RunEnd(found, i);
      var first, rest := BlockOf(lines, found, i, j), Blocks(lines, found, j);
      BlockOfRun(lines, found, i, j);
      BlocksFrom(lines, found, j);
      assert AreBlocks(lines, found, first);
      BlockBefore(lines, found, j, first, rest);
      OrderedFrom(first + rest, if first == [] then j else i, i);
    }
  }

  lemma BlockBefore(lines: seq<string>, found: seq<Option<string>>, j: nat, first: seq<CommentBlock>,
      rest: seq<CommentBlock>)
    requires j <= |found| == |lines| && (j < |found| ==> found[j].None?)
    requires AreBlocks(lines, found, rest) && Ordered(rest, j)
    requires |first| <= 1 && AreBlocks(lines, found, first) && (first != [] ==> first[0].endLine <= j)
    ensures AreBlocks(lines, found, first + rest)
    ensures Ordered(first + rest, if first == [] then j else first[0].startLine - 1)
  {
    hide IsBlock;
    forall k | 0 <= k < |rest| ensures j + 1 < rest[k].startLine { BlockStartsMarked(lines, found, rest[k]); }
    if first != [] { BlockStartsMarked(lines, found, first[0]); }
  }

  lemma BlockStartsMarked(lines: seq<string>, found: seq<Option<string>>, b: CommentBlock)
    requires |found| == |lines| && IsBlock(lines, found, b)
    ensures 1 <= b.startLine <= b.endLine <= |lines| && found[b.startLine - 1].Some?
  {
  }

  lemma {:induction false} RunsHaveBlocks(lines: seq<string>, found: seq<Option<string>>, i: nat, p: nat, q: nat)
    requires i <= p && |found| == |lines| && IsProseRun(lines, found, p, q)
    requires i == 0 || found[i].None? || found[i - 1].None?
    ensures Starts(Blocks(lines, found, i), p + 1)
    decreases |found| - i
  {
    hide IsBlock, BlockOf, AllBlank, IsBlank;
    if found[i].None? {
      RunsHaveBlocks(lines, found, i + 1, p, q);
    } else {
      var j := RunEnd(found, i);
      var first, rest := BlockOf(lines, found, i, j), Blocks(lines, found, j);
      BlockOfRun(lines, found, i, j);
      if p == i {
        assert q == j && (first + rest)[0] == first[0];
      } else {
        assert p > j;
        RunsHaveBlocks(lines, found, j, p, q);
        var k :| 0 <= k < |rest| && rest[k].startLine == p + 1;
        assert (first + rest)[|first| + k] == rest[k];
      }
    }
  }

  /**
   * Blocks are exact: in order with an unmarked line between any two, each a whole maximal run of comment
   * lines less its blank end, and every maximal run that is not blank throughout makes one.
   */
  lemma BlocksAreMaximalRuns(lines: seq<string>, found: seq<Option<string>>)
    requires |found| == |lines|
    ensures AreBlocks(lines, found, Blocks(lines, found, 0)) && Ordered(Blocks(lines, found, 0), 0)
    ensures forall p: nat, q: nat :: IsProseRun(lines, found, p, q) ==> Starts(Blocks(lines, found, 0), p + 1)
  {
    hide *;
    BlocksFrom(lines, found, 0);
    forall p: nat, q: nat | IsProseRun(lines, found, p, q) ensures Starts(Blocks(lines, found, 0), p + 1) {
      RunsHaveBlocks(lines, found, 0, p, q);
    }
  }

  // ----- lengths -----

  function Total(bs: seq<CommentBlock>): nat {
    if bs == [] then 0 else bs[0].length + Total(bs[1..])
  }

  /** A run of comment lines ends on a blank line here. */
  predicate EndsBlank(lines: seq<string>, found: seq<Option<string>>, x: nat)
    requires |found| == |lines|
  {
    x < |lines| && found[x].Some? && IsBlank(lines[x]) && (x + 1 == |lines| || found[x + 1].None?)
  }

  lemma {:induction false} CountRun(found: seq<Option<string>>, i: nat, j: nat)
    requires i <= j <= |found| && forall x :: i <= x < j ==> found[x].Some?
    ensures Count(found[i..]) == j - i + Count(found[j..])
    decreases j - i
  {
    if i < j {
      assert found[i..][1..] == found[i + 1..];
      CountRun(found, i + 1, j);
    }
  }

  lemma TotalOfRun(lines: seq<string>, found: seq<Option<string>>, i: nat, j: nat, rest: seq<CommentBlock>)
    requires i < j <= |found| == |lines|
    ensures Total(BlockOf(lines, found, i, j) + rest) <= j - i + Total(rest)
    ensures Total(BlockOf(lines, found, i, j) + rest) == j - i + Total(rest) <==> !IsBlank(lines[j - 1])
  {
    hide IsBlank;
    var first, run := BlockOf(lines, found, i, j), lines[i..j];
    TrimBackIs(run);
    assert run[|run| - 1] == lines[j - 1];
    if first == [] {
      assert first + rest == rest;
    } else {
      assert (first + rest)[1..] == rest;
    }
  }

  /** The lengths add up to the comment lines counted exactly when no run ends on a blank line. */
  lemma {:induction false} LengthsSum(lines: seq<string>, found: seq<Option<string>>, i: nat)
    requires i <= |found| == |lines|
    ensures Total(Blocks(lines, found, i)) <= Count(found[i..])
    ensures Total(Blocks(lines, found, i)) == Count(found[i..]) <==>
            forall x :: i <= x < |lines| ==> !EndsBlank(lines, found, x)
    decreases |found| - i
  {
    hide IsBlank, BlockOf;
    if i == |found| {
    } else if found[i].None? {
      assert found[i..][1..] == found[i + 1..];
      LengthsSum(lines, found, i + 1);
    } else {
      var j := RunEnd(found, i);
      CountRun(found, i, j);
      LengthsSum(lines, found, j);
      TotalOfRun(lines, found, i, j, Blocks(lines, found, j));
      assert EndsBlank(lines, found, j - 1) <==> IsBlank(lines[j - 1]);
      forall x | i <= x < j - 1 ensures !EndsBlank(lines, found, x) {
        assert found[x + 1].Some?;
      }
    }
  }

  predicate IsCarried(m: Mode) { m.Code? || m.Block? || m.Str? }

  /** A line of spaces leaves a carried mode alone and carries comment text only inside a block. */
  lemma {:induction false} SpacesKeepMode(line: string, m: Mode, lang: Lang)
    requires IsCarried(m) && (m.Str? ==> m.quote == '`') && forall i :: 0 <= i < |line| ==> IsSpace(line[i])
    ensures After(line, m, lang) == m && (!m.Block? ==> Pieces(line, m, lang) == [])
  {
    if line != "" { SpacesKeepMode(line[1..], m, lang); }
  }

  lemma {:induction false} BlankIsSpaces(line: string)
    requires IsBlank(line)
    ensures forall i :: 0 <= i < |line| ==> IsSpace(line[i])
  {
    forall i | 0 <= i < |line| ensures IsSpace(line[i]) {
      if !IsSpace(line[i]) { NonSpaceIsNotBlank(line, i); }
    }
  }

  /** Inside a comment a blank line is followed by a comment line, if by any. */
  lemma {:induction false} BlankGoesOn(lines: seq<string>, m: Mode, lang: Lang, x: nat)
    requires m == Newline(m) && x + 1 < |lines|
    requires Bodies(lines, m, lang)[x].Some? && IsBlank(lines[x])
    ensures Bodies(lines, m, lang)[x + 1].Some?
  {
    hide IsBlank;
    var next := Newline(After(lines[0], m, lang));
    if x == 0 {
      BlankIsSpaces(lines[0]);
      SpacesKeepMode(lines[0], m, lang);
      assert next == Block;
      assert Bodies(lines, m, lang)[1] == Bodies(lines[1..], next, lang)[0];
    } else {
      assert Bodies(lines, m, lang)[x] == Bodies(lines[1..], next, lang)[x - 1];
      assert Bodies(lines, m, lang)[x + 1] == Bodies(lines[1..], next, lang)[x];
      BlankGoesOn(lines[1..], next, lang, x - 1);
    }
  }

  /** In C-like text: unless the last line is a blank one inside a block comment that never closes. */
  lemma LengthsCoverCommentLines(lines: seq<string>, lang: Lang)
    ensures var found := Bodies(lines, Code, lang);
            Total(Blocks(lines, found, 0)) == Count(found) <==>
              !(lines != [] && found[|lines| - 1].Some? && IsBlank(lines[|lines| - 1]))
  {
    hide IsBlank, Blocks;
    var found := Bodies(lines, Code, lang);
    LengthsSum(lines, found, 0);
    assert found[0..] == found;
    forall x: nat | x + 1 < |lines| ensures !EndsBlank(lines, found, x) {
      if found[x].Some? && IsBlank(lines[x]) { BlankGoesOn(lines, Code, lang, x); }
    }
    if lines != [] {
      assert EndsBlank(lines, found, |lines| - 1) <==> found[|lines| - 1].Some? && IsBlank(lines[|lines| - 1]);
    }
  }

  // ----- blocks of a text put together from two -----

  function ShiftBlock(b: CommentBlock, n: nat): CommentBlock {
    b.(startLine := b.startLine + n, endLine := b.endLine + n)
  }

  function Shift(bs: seq<CommentBlock>, n: nat): (s: seq<CommentBlock>)
    ensures |s| == |bs|
  {
    if bs == [] then [] else [ShiftBlock(bs[0], n)] + Shift(bs[1..], n)
  }

  lemma {:induction false} ShiftConcat(a: seq<CommentBlock>, b: seq<CommentBlock>, n: nat)
    ensures Shift(a + b, n) == Shift(a, n) + Shift(b, n)
  {
    if a == [] {
      assert a + b == b;
    } else {
      assert (a + b)[1..] == a[1..] + b;
      ShiftConcat(a[1..], b, n);
    }
  }

  lemma {:induction false} RunEndIs(found: seq<Option<string>>, i: nat, j: nat)
    requires i <= j <= |found| && (j < |found| ==> found[j].None?)
    requires forall x :: i <= x < j ==> found[x].Some?
    ensures RunEnd(found, i) == j
    decreases j - i
  {
    if i < j { RunEndIs(found, i + 1, j); }
  }

  lemma {:induction false} RunEndOfSuffix(fa: seq<Option<string>>, fb: seq<Option<string>>, x: nat)
    requires x <= |fb|
    ensures RunEnd(fa + fb, |fa| + x) == |fa| + RunEnd(fb, x)
    decreases |fb| - x
  {
    if x < |fb| && fb[x].Some? { RunEndOfSuffix(fa, fb, x + 1); }
  }

  lemma NothingShifted(n: nat)
    ensures Shift([], n) == []
  {
  }

  lemma OneShifted(b: CommentBlock, n: nat)
    ensures Shift([b], n) == [ShiftBlock(b, n)]
  {
    assert [b][1..] == [];
  }

  lemma BlockOfSuffix(
    la: seq<string>, fa: seq<Option<string>>, lb: seq<string>, fb: seq<Option<string>>, x: nat, y: nat)
    requires |fa| == |la| && x <= y <= |fb| == |lb|
    ensures BlockOf(la + lb, fa + fb, |la| + x, |la| + y) == Shift(BlockOf(lb, fb, x, y), |la|)
  {
    hide TrimBack, Texts, Shift;
    var n := |la|;
    var raw := TrimBack(lb[x..y]);
    assert (la + lb)[n + x..n + y] == lb[x..y];
    assert (fa + fb)[n + x..n + x + |raw|] == fb[x..x + |raw|];
    NothingShifted(n);
    if raw != [] { OneShifted(BlockOf(lb, fb, x, y)[0], n); }
  }

  lemma {:induction false} BlocksOfSuffix(
    la: seq<string>, fa: seq<Option<string>>, lb: seq<string>, fb: seq<Option<string>>, x: nat)
    requires |fa| == |la| && x <= |fb| == |lb|
    ensures Blocks(la + lb, fa + fb, |la| + x) == Shift(Blocks(lb, fb, x), |la|)
    decreases |fb| - x
  {
    hide BlockOf, Shift, RunEnd;
    var lines, found, n := la + lb, fa + fb, |la|;
    if x == |fb| {
      NothingShifted(n);
    } else if fb[x].None? {
      BlocksOfSuffix(la, fa, lb, fb, x + 1);
    } else {
      var y := RunEnd(fb, x);
      RunEndOfSuffix(fa, fb, x);
      BlockOfSuffix(la, fa, lb, fb, x, y);
      ShiftConcat(BlockOf(lb, fb, x, y), Blocks(lb, fb, y), n);
      BlocksOfSuffix(la, fa, lb, fb, y);
    }
  }

  /** No run of comment lines goes on from `fa` into `fb`. */
  predicate Apart(fa: seq<Option<string>>, fb: seq<Option<string>>) {
    fa == [] || fb == [] || fa[|fa| - 1].None? || fb[0].None?
  }

  lemma BlockOfPrefix(
    la: seq<string>, fa: seq<Option<string>>, lb: seq<string>, fb: seq<Option<string>>, i: nat, j: nat)
    requires i <= j <= |fa| == |la| && |fb| == |lb|
    ensures BlockOf(la + lb, fa + fb, i, j) == BlockOf(la, fa, i, j)
  {
    hide TrimBack;
    var raw := TrimBack(la[i..j]);
    assert (la + lb)[i..j] == la[i..j];
    assert (fa + fb)[i..i + |raw|] == fa[i..i + |raw|];
  }

  lemma {:induction false} BlocksOfConcat(
    la: seq<string>, fa: seq<Option<string>>, lb: seq<string>, fb: seq<Option<string>>, i: nat)
    requires i <= |fa| == |la| && |fb| == |lb| && Apart(fa, fb)
    ensures Blocks(la + lb, fa + fb, i) == Blocks(la, fa, i) + Shift(Blocks(lb, fb, 0), |la|)
    decreases |fa| - i
  {
    hide BlockOf, Shift, RunEnd;
    var lines, found := la + lb, fa + fb;
    if i == |fa| {
      BlocksOfSuffix(la, fa, lb, fb, 0);
    } else if fa[i].None? {
      BlocksOfConcat(la, fa, lb, fb, i + 1);
    } else {
      var j := RunEnd(fa, i);
      assert forall z :: i <= z < j ==> found[z] == fa[z];
      RunEndIs(found, i, j);
      BlockOfPrefix(la, fa, lb, fb, i, j);
      BlocksOfConcat(la, fa, lb, fb, j);
    }
  }

  lemma {:induction false} NoBlocks(lines: seq<string>, found: seq<Option<string>>, i: nat)
    requires i <= |found| == |lines| && forall x :: 0 <= x < |found| ==> found[x].None?
    ensures Blocks(lines, found, i) == []
    decreases |found| - i
  {
    if i < |found| { NoBlocks(lines, found, i + 1); }
  }

  // ----- the loop -----

  /** The block a run under way makes when it ends. */
  function Closed(start: Option<nat>, lines: seq<string>, bodies: seq<string>): seq<CommentBlock>
    requires |bodies| == |lines|
  {
    var raw := TrimBack(lines);
    if start.None? || raw == [] then []
    else [CommentBlock(start.value, start.value + |raw| - 1, |raw|, bodies[..|raw|], raw)]
  }

  method Flush(start: Option<nat>, lines: seq<string>, bodies: seq<string>) returns (b: seq<CommentBlock>)
    requires |bodies| == |lines|
    ensures b == Closed(start, lines, bodies)
  {
    if start.None? {
      return [];
    }
    var raw := lines;
    while raw != [] && IsBlank(raw[|raw| - 1])
      invariant raw <= lines && TrimBack(raw) == TrimBack(lines)
      decreases |raw|
    {
      raw := raw[..|raw| - 1];
    }
    if raw == [] {
      return [];
    }
    b := [CommentBlock(start.value, start.value + |raw| - 1, |raw|, bodies[..|raw|], raw)];
  }

  method ExtractBlocks(lines: seq<string>, lang: Lang) returns (blocks: seq<CommentBlock>, commentLines: nat)
    ensures blocks == Blocks(lines, Bodies(lines, Code, lang), 0)
    ensures commentLines == Count(Bodies(lines, Code, lang))
  {
    hide BlockOf, TrimBack, Blocks, Pieces, After, Body, Texts, IsBlank, Closed, InRun, Bodies, Count;
    ghost var found := Bodies(lines, Code, lang);
    var scanner := new Scanner(lang);
    blocks, commentLines := [], 0;
    var start: Option<nat> := None;
    var current, bodies: seq<string> := [], [];
    NoRun(lines, found, 0);
    for i := 0 to |lines|
      invariant fresh(scanner) && scanner.Valid() && scanner.lang == lang
      invariant found[i..] == Bodies(lines[i..], scanner.Carried(), lang)
      invariant commentLines + Count(found[i..]) == Count(found)
      invariant InRun(lines, found, i, start, current, bodies) && |bodies| == |current|
      invariant start.Some? ==> 1 <= start.value <= i
      invariant blocks + Blocks(lines, found, if start.Some? then start.value - 1 else i) == Blocks(lines, found, 0)
    {
      NextLine(lines, found, scanner.Carried(), lang, i);
      var marked, body := scanner.IsCommentLine(lines[i]);
      assert body == found[i];
      if marked {
        commentLines := commentLines + 1;
        var text := if body.Some? then body.value else "";
        RunGrows(lines, found, i, start, current, bodies);
        if start.None? {
          start, current, bodies := Some(i + 1), [lines[i]], [text];
        } else {
          current, bodies := current + [lines[i]], bodies + [text];
        }
      } else {
        var b := Flush(start, current, bodies);
        RunCloses(lines, found, i, start, current, bodies);
        NoRun(lines, found, i + 1);
        blocks := blocks + b;
        start, current, bodies := None, [], [];
      }
    }
    assert found[|found|..] == [] && Count([]) == 0 by { NoLines(); }
    var b := Flush(start, current, bodies);
    RunCloses(lines, found, |lines|, start, current, bodies);
    blocks := blocks + b;
  }

  /** What the loop holds at line `i`: the run it is in, from its first line on. */
  ghost predicate InRun(
    lines: seq<string>, found: seq<Option<string>>, i: nat, start: Option<nat>, current: seq<string>,
      bodies: seq<string>)
  {
    && i <= |lines| == |found|
    && match start
       case None => current == [] && bodies == []
       case Some(s) =>
         && 1 <= s <= i && (forall x :: s - 1 <= x < i ==> found[x].Some?)
         && current == lines[s - 1..i] && bodies == Texts(found[s - 1..i])
  }

  lemma NoLines()
    ensures Count([]) == 0
  {
  }

  lemma NextLine(lines: seq<string>, found: seq<Option<string>>, m: Mode, lang: Lang, i: nat)
    requires i < |lines| == |found| && found[i..] == Bodies(lines[i..], m, lang)
    ensures found[i] == Body(Pieces(lines[i], m, lang), m.Block?)
    ensures found[i + 1..] == Bodies(lines[i + 1..], Newline(After(lines[i], m, lang)), lang)
    ensures Count(found[i..]) == (if found[i].Some? then 1 else 0) + Count(found[i + 1..])
  {
    assert lines[i..][1..] == lines[i + 1..] && found[i..][1..] == found[i + 1..];
    assert found[i..][0] == found[i];
  }

  lemma NoRun(lines: seq<string>, found: seq<Option<string>>, i: nat)
    requires i <= |lines| == |found|
    ensures InRun(lines, found, i, None, [], [])
  {
  }

  lemma RunGrows(
    lines: seq<string>, found: seq<Option<string>>, i: nat, start: Option<nat>, current: seq<string>,
      bodies: seq<string>)
    requires InRun(lines, found, i, start, current, bodies) && i < |lines| && found[i].Some?
    ensures start.None? ==> InRun(lines, found, i + 1, Some(i + 1), [lines[i]], [found[i].value])
    ensures start.Some? ==> InRun(lines, found, i + 1, start, current + [lines[i]], bodies + [found[i].value])
  {
    assert lines[i..i + 1] == [lines[i]] && Texts(found[i..i + 1]) == [found[i].value];
    if start.Some? {
      var s := start.value - 1;
      assert lines[s..i + 1] == lines[s..i] + [lines[i]];
      assert found[s..i + 1] == found[s..i] + [found[i]];
      assert Texts(found[s..i + 1]) == Texts(found[s..i]) + [found[i].value];
    }
  }

  lemma BlocksAtRun(lines: seq<string>, found: seq<Option<string>>, i: nat, j: nat)
    requires i < j <= |found| == |lines| && (j < |found| ==> found[j].None?)
    requires forall x :: i <= x < j ==> found[x].Some?
    ensures Blocks(lines, found, i) == BlockOf(lines, found, i, j) + Blocks(lines, found, j)
  {
    hide BlockOf;
    RunEndIs(found, i, j);
  }

  lemma BlocksUnmarked(lines: seq<string>, found: seq<Option<string>>, i: nat)
    requires i <= |found| == |lines| && (i < |found| ==> found[i].None?)
    ensures Blocks(lines, found, i) == if i < |found| then Blocks(lines, found, i + 1) else []
  {
  }

  /** Closing the run under way gives the block the run makes. */
  lemma RunCloses(
    lines: seq<string>, found: seq<Option<string>>, i: nat, start: Option<nat>, current: seq<string>,
      bodies: seq<string>)
    requires InRun(lines, found, i, start, current, bodies) && (i < |found| ==> found[i].None?)
    ensures Blocks(lines, found, if start.Some? then start.value - 1 else i) ==
            Closed(start, current, bodies) + Blocks(lines, found, i)
    ensures Blocks(lines, found, i) == if i < |found| then Blocks(lines, found, i + 1) else []
  {
    hide TrimBack, RunEnd, Blocks;
    BlocksUnmarked(lines, found, i);
    if start.Some? {
      var s := start.value - 1;
      var raw := TrimBack(current);
      BlocksAtRun(lines, found, s, i);
      assert Texts(found[s..i])[..|raw|] == Texts(found[s..s + |raw|]);
      assert BlockOf(lines, found, s, i) == Closed(start, current, bodies);
    }
  }
}
