/** The string operations the Python scripts rely on, as functions on char sequences. */
module Text {
  /** str.isspace, which is what str.strip removes. */
  predicate IsSpace(c: char) {
    ('\t' <= c <= '\r') || ('\U{1C}' <= c <= ' ') || c == '\U{85}' || c == '\U{A0}' || c == '\U{1680}' ||
    ('\U{2000}' <= c <= '\U{200A}') || c == '\U{2028}' || c == '\U{2029}' || c == '\U{202F}' || c == '\U{205F}' ||
    c == '\U{3000}'
  }

  /** The characters str.splitlines breaks at (a file read as text holds no carriage return pairs). */
  predicate IsBreak(c: char) {
    ('\n' <= c <= '\r') || ('\U{1C}' <= c <= '\U{1E}') || c == '\U{85}' || c == '\U{2028}' || c == '\U{2029}'
  }

  predicate NoBreak(s: string) {
    forall i :: 0 <= i < |s| ==> !IsBreak(s[i])
  }

  predicate AllNoBreak(lines: seq<string>) {
    forall i :: 0 <= i < |lines| ==> NoBreak(lines[i])
  }

  predicate IsLine(s: string) { forall i :: 0 <= i < |s| ==> s[i] != '\n' }

  predicate AreLines(lines: seq<string>) { forall i :: 0 <= i < |lines| ==> IsLine(lines[i]) }

  function LStrip(s: string): string {
    if s != [] && IsSpace(s[0]) then LStrip(s[1..]) else s
  }

  function RStrip(s: string): string {
    if s != [] && IsSpace(s[|s| - 1]) then RStrip(s[..|s| - 1]) else s
  }

  function Strip(s: string): string {
    RStrip(LStrip(s))
  }

  predicate IsBlank(s: string) {
    Strip(s) == ""
  }

  /** str.lstrip(c) */
  function LStripChar(s: string, c: char): string {
    if s != [] && s[0] == c then LStripChar(s[1..], c) else s
  }

  /** Index of the first `c`, or the length. */
  function Find(s: string, c: char): (k: nat)
    ensures k <= |s| && (k < |s| ==> s[k] == c)
    ensures forall i :: 0 <= i < k ==> s[i] != c
  {
    if s == [] || s[0] == c then 0 else 1 + Find(s[1..], c)
  }

  /** str.join */
  function Join(parts: seq<string>, sep: string): string {
    if parts == [] then ""
    else if |parts| == 1 then parts[0]
    else parts[0] + sep + Join(parts[1..], sep)
  }

  /** The parts that are not empty, as in joining `part for part in parts if part`. */
  function NonEmpty(parts: seq<string>): seq<string> {
    if parts == [] then [] else (if parts[0] == "" then [] else [parts[0]]) + NonEmpty(parts[1..])
  }

  function LineEnd(s: string): (k: nat)
    ensures k <= |s| && (k < |s| ==> IsBreak(s[k]))
    ensures forall i :: 0 <= i < k ==> !IsBreak(s[i])
  {
    if s == [] || IsBreak(s[0]) then 0 else 1 + LineEnd(s[1..])
  }

  /** str.splitlines: a final line break does not open another line. */
  function SplitLines(text: string): (lines: seq<string>)
    ensures AllNoBreak(lines)
  {
    if text == "" then []
    else
      var k := LineEnd(text);
      if k == |text| then [text] else [text[..k]] + SplitLines(text[k + 1..])
  }

  /** Lines without the blank lines at their end. */
  function TrimBack(lines: seq<string>): (kept: seq<string>)
    ensures kept <= lines
  {
    if lines != [] && IsBlank(lines[|lines| - 1]) then TrimBack(lines[..|lines| - 1]) else lines
  }

  // ----- strip -----

  /** Nothing to strip at either end. */
  predicate Trim(s: string) {
    s == "" || (!IsSpace(s[0]) && !IsSpace(s[|s| - 1]))
  }

  lemma {:induction false} LStripStarts(s: string)
    ensures LStrip(s) == "" || !IsSpace(LStrip(s)[0])
    ensures LStrip(s) != "" ==> LStrip(s)[|LStrip(s)| - 1] == s[|s| - 1]
    ensures |LStrip(s)| <= |s|
  {
    if s != [] && IsSpace(s[0]) { LStripStarts(s[1..]); }
  }

  lemma {:induction false} RStripEnds(s: string)
    ensures RStrip(s) == "" || !IsSpace(RStrip(s)[|RStrip(s)| - 1])
    ensures RStrip(s) <= s
  {
    if s != [] && IsSpace(s[|s| - 1]) { RStripEnds(s[..|s| - 1]); }
  }

  lemma StripTrims(s: string)
    ensures Trim(Strip(s))
  {
    LStripStarts(s);
    RStripEnds(LStrip(s));
  }

  lemma TrimIsStripped(s: string)
    requires Trim(s)
    ensures Strip(s) == s
  {
  }

  predicate AllSpace(s: string) { forall i :: 0 <= i < |s| ==> IsSpace(s[i]) }

  /** Nothing but spaces around a text. */
  ghost predicate Padded(s: string, inner: string) {
    exists before: string, after: string :: AllSpace(before) && AllSpace(after) && s == before + inner + after
  }

  lemma {:induction false} LStripSplit(s: string)
    ensures |LStrip(s)| <= |s| && s[|s| - |LStrip(s)|..] == LStrip(s) && AllSpace(s[..|s| - |LStrip(s)|])
  {
    if s != [] && IsSpace(s[0]) {
      LStripSplit(s[1..]);
      var n := |s| - |LStrip(s)|;
      assert s[..n] == [s[0]] + s[1..][..n - 1];
    }
  }

  lemma {:induction false} RStripSplit(s: string)
    ensures RStrip(s) <= s && AllSpace(s[|RStrip(s)|..])
  {
    if s != [] && IsSpace(s[|s| - 1]) {
      RStripSplit(s[..|s| - 1]);
      var n := |RStrip(s)|;
      assert s[n..] == s[..|s| - 1][n..] + [s[|s| - 1]];
    }
  }

  lemma {:induction false} LStripOver(ws: string, s: string)
    requires AllSpace(ws)
    ensures LStrip(ws + s) == LStrip(s)
  {
    if ws == "" {
      assert ws + s == s;
    } else {
      assert (ws + s)[1..] == ws[1..] + s;
      LStripOver(ws[1..], s);
    }
  }

  lemma {:induction false} RStripOver(s: string, ws: string)
    requires AllSpace(ws)
    ensures RStrip(s + ws) == RStrip(s)
  {
    if ws == "" {
      assert s + ws == s;
    } else {
      assert (s + ws)[..|s + ws| - 1] == s + ws[..|ws| - 1];
      RStripOver(s, ws[..|ws| - 1]);
    }
  }

  lemma StripSplit(line: string) returns (before: string, after: string)
    ensures line == before + Strip(line) + after && AllSpace(before) && AllSpace(after)
  {
    LStripSplit(line);
    RStripSplit(LStrip(line));
    before := line[..|line| - |LStrip(line)|];
    after := LStrip(line)[|Strip(line)|..];
  }

  lemma RStripAfterMark(head: string, tail: string)
    requires head != "" && !IsSpace(head[|head| - 1])
    ensures RStrip(head + tail) == head + RStrip(tail)
  {
    if tail == "" {
      assert head + tail == head;
    } else if IsSpace(tail[|tail| - 1]) {
      assert (head + tail)[..|head + tail| - 1] == head + tail[..|tail| - 1];
      RStripAfterMark(head, tail[..|tail| - 1]);
    }
  }

  lemma StripOver(before: string, inner: string, after: string)
    requires AllSpace(before) && AllSpace(after)
    ensures Strip(before + inner + after) == Strip(inner)
  {
    assert before + inner + after == before + (inner + after);
    LStripOver(before, inner + after);
    LStripAppend(inner, after);
    if LStrip(inner) != "" { RStripOver(LStrip(inner), after); }
  }

  lemma {:induction false} LStripAppend(s: string, ws: string)
    requires AllSpace(ws)
    ensures LStrip(s + ws) == if LStrip(s) == "" then "" else LStrip(s) + ws
  {
    if s == "" {
      LStripOver(ws, "");
      assert s + ws == ws && ws + "" == ws;
    } else if IsSpace(s[0]) {
      assert (s + ws)[1..] == s[1..] + ws;
      LStripAppend(s[1..], ws);
    }
  }

  /** Stripping takes the spaces at both ends and nothing else. */
  lemma StripIsExact(s: string, inner: string)
    ensures Strip(s) == inner <==> Trim(inner) && Padded(s, inner)
  {
    if Strip(s) == inner {
      StripTrims(s);
      var before, after := StripSplit(s);
    } else if Trim(inner) && Padded(s, inner) {
      var before: string, after: string :| AllSpace(before) && AllSpace(after) && s == before + inner + after;
      StripOver(before, inner, after);
      TrimIsStripped(inner);
    }
  }

  predicate AllChar(s: string, c: char) { forall i :: 0 <= i < |s| ==> s[i] == c }

  lemma {:induction false} LStripCharOver(marks: string, rest: string, c: char)
    requires AllChar(marks, c) && (rest == "" || rest[0] != c)
    ensures LStripChar(marks + rest, c) == rest
  {
    if marks == "" {
      assert marks + rest == rest;
    } else {
      assert (marks + rest)[1..] == marks[1..] + rest;
      LStripCharOver(marks[1..], rest, c);
    }
  }

  /** Marks in front of a text go with the spaces around them. */
  lemma MarksStripped(before: string, marks: string, gap: string, inner: string, after: string, mark: char)
    requires AllSpace(before) && AllSpace(gap) && AllSpace(after) && Trim(inner) && AllChar(marks, mark)
    requires !IsSpace(mark) && (inner == "" || inner[0] != mark || (marks != "" && gap != ""))
    ensures Strip(LStripChar(Strip(before + marks + gap + inner + after), mark)) == inner
  {
    hide Strip, LStripChar;
    var line := before + marks + gap + inner + after;
    TrimIsStripped(inner);
    if marks == "" {
      assert line == (before + gap) + inner + after;
      StripOver(before + gap, inner, after);
      LStripCharOver("", inner, mark);
      assert "" + inner == inner;
    } else if inner == "" {
      assert line == before + marks + (gap + after);
      StripOver(before, marks, gap + after);
      TrimIsStripped(marks);
      LStripCharOver(marks, "", mark);
      assert marks + "" == marks;
    } else {
      var text := marks + gap + inner;
      assert line == before + text + after;
      StripOver(before, text, after);
      TrimIsStripped(text);
      assert text == marks + (gap + inner);
      LStripCharOver(marks, gap + inner, mark);
      StripOver(gap, inner, "");
      assert gap + inner + "" == gap + inner;
    }
  }

  lemma {:induction false} LStripCharSplit(s: string, c: char)
    ensures |LStripChar(s, c)| <= |s| && s[|s| - |LStripChar(s, c)|..] == LStripChar(s, c)
    ensures AllChar(s[..|s| - |LStripChar(s, c)|], c)
  {
    if s != [] && s[0] == c {
      LStripCharSplit(s[1..], c);
      var n := |s| - |LStripChar(s, c)|;
      assert s[..n] == [s[0]] + s[1..][..n - 1];
    }
  }

  lemma MarksSplit(s: string, mark: char) returns (before: string, marks: string, gap: string, after: string)
    ensures s == before + marks + gap + Strip(LStripChar(Strip(s), mark)) + after
    ensures AllSpace(before) && AllChar(marks, mark) && AllSpace(gap) && AllSpace(after)
  {
    hide Strip, LStripChar;
    var stripped := Strip(s);
    var bare := LStripChar(stripped, mark);
    var tail, end;
    before, tail := StripSplit(s);
    LStripCharSplit(stripped, mark);
    marks := stripped[..|stripped| - |bare|];
    gap, end := StripSplit(bare);
    after := end + tail;
    Regroup(before, marks, gap, Strip(bare), end, tail);
    assert stripped == marks + bare;
  }

  lemma Regroup(a: string, b: string, c: string, d: string, e: string, f: string)
    ensures a + (b + (c + d + e)) + f == a + b + c + d + (e + f)
  {
  }

  lemma {:induction false} NonSpaceIsNotBlank(s: string, i: nat)
    requires i < |s| && !IsSpace(s[i])
    ensures !IsBlank(s)
  {
    LStripKeeps(s, i);
    RStripKeeps(LStrip(s), i - (|s| - |LStrip(s)|));
  }

  lemma {:induction false} LStripKeeps(s: string, i: nat)
    requires i < |s| && !IsSpace(s[i])
    ensures |s| - i <= |LStrip(s)| <= |s|
    ensures LStrip(s) == s[|s| - |LStrip(s)|..]
  {
    if IsSpace(s[0]) {
      LStripKeeps(s[1..], i - 1);
    }
  }

  lemma {:induction false} RStripKeeps(s: string, i: nat)
    requires i < |s| && !IsSpace(s[i])
    ensures i < |RStrip(s)|
  {
    if IsSpace(s[|s| - 1]) {
      RStripKeeps(s[..|s| - 1], i);
    }
  }

  lemma {:induction false} TrimBackIs(lines: seq<string>)
    ensures TrimBack(lines) == [] || !IsBlank(TrimBack(lines)[|TrimBack(lines)| - 1])
    ensures forall i :: |TrimBack(lines)| <= i < |lines| ==> IsBlank(lines[i])
  {
    if lines != [] && IsBlank(lines[|lines| - 1]) { TrimBackIs(lines[..|lines| - 1]); }
  }

  // ----- lines -----

  lemma LineEndAfter(line: string, rest: string)
    requires NoBreak(line) && rest != "" && IsBreak(rest[0])
    ensures LineEnd(line + rest) == |line|
  {
    assert (line + rest)[|line|] == rest[0];
    assert forall i :: 0 <= i < |line| ==> (line + rest)[i] == line[i];
  }

  lemma SplitFirst(line: string, rest: string)
    requires NoBreak(line)
    ensures SplitLines(line + "\n" + rest) == [line] + SplitLines(rest)
  {
    var text := line + "\n" + rest;
    LineEndAfter(line, "\n" + rest);
    assert text == line + ("\n" + rest);
    assert text[..|line|] == line && text[|line| + 1..] == rest;
  }

  lemma SplitSingle(line: string)
    requires NoBreak(line)
    ensures SplitLines(line) == if line == "" then [] else [line]
  {
  }

  /** Printing lines and reading them back. */
  lemma {:induction false} SplitJoin(lines: seq<string>)
    requires AllNoBreak(lines) && lines != []
    ensures SplitLines(Join(lines, "\n") + "\n") == lines
  {
    hide SplitLines;
    var rest := Join(lines[1..], "\n");
    if |lines| == 1 {
      SplitSingle("");
      SplitFirst(lines[0], "");
      assert Join(lines, "\n") + "\n" == lines[0] + "\n" + "";
    } else {
      SplitJoin(lines[1..]);
      SplitFirst(lines[0], rest + "\n");
      assert Join(lines, "\n") + "\n" == lines[0] + "\n" + (rest + "\n");
    }
  }

  /** Without the final line break a last empty line is not read back. */
  lemma {:induction false} SplitJoinOpen(lines: seq<string>)
    requires AllNoBreak(lines) && lines != []
    ensures SplitLines(Join(lines, "\n")) == if lines[|lines| - 1] == "" then lines[..|lines| - 1] else lines
  {
    hide SplitLines;
    if |lines| == 1 {
      SplitSingle(lines[0]);
    } else {
      var rest := lines[1..];
      SplitJoinOpen(rest);
      SplitFirst(lines[0], Join(rest, "\n"));
      assert lines == [lines[0]] + rest;
      assert lines[..|lines| - 1] == [lines[0]] + rest[..|rest| - 1];
    }
  }

  /** An empty last line shows as a final line break. */
  lemma {:induction false} JoinEmptyLast(lines: seq<string>)
    requires lines != []
    ensures Join(lines + [""], "\n") == Join(lines, "\n") + "\n"
  {
    assert (lines + [""])[1..] == lines[1..] + [""];
    if |lines| == 1 {
      assert Join([""], "\n") == "" && lines[0] + "\n" + "" == lines[0] + "\n";
    } else {
      JoinEmptyLast(lines[1..]);
    }
  }

  // ----- joining what is not empty -----

  lemma JoinNonEmptyPush(parts: seq<string>, part: string)
    ensures var before := Join(NonEmpty(parts), " ");
            Join(NonEmpty(parts + [part]), " ") ==
            if part == "" then before else if before == "" then part else before + " " + part
  {
    NonEmptyPush(parts, part);
    var full := NonEmpty(parts);
    if part == "" {
      assert full + [] == full;
    } else {
      JoinPush(full, part);
    }
  }

  lemma {:induction false} NonEmptyPush(parts: seq<string>, part: string)
    ensures NonEmpty(parts + [part]) == NonEmpty(parts) + if part == "" then [] else [part]
    ensures forall i :: 0 <= i < |NonEmpty(parts)| ==> NonEmpty(parts)[i] != ""
  {
    if parts == [] {
      assert parts + [part] == [part] && [part][1..] == [];
    } else {
      assert (parts + [part])[1..] == parts[1..] + [part];
      NonEmptyPush(parts[1..], part);
    }
  }

  lemma {:induction false} JoinPush(parts: seq<string>, part: string)
    requires forall i :: 0 <= i < |parts| ==> parts[i] != ""
    ensures Join(parts, " ") == "" <==> parts == []
    ensures Join(parts + [part], " ") == if parts == [] then part else Join(parts, " ") + " " + part
  {
    if parts == [] {
      assert parts + [part] == [part];
    } else {
      assert (parts + [part])[1..] == parts[1..] + [part];
      JoinPush(parts[1..], part);
      if |parts| > 1 { JoinsApart(parts[0], Join(parts[1..], " "), part); }
    }
  }

  lemma JoinsApart(a: string, b: string, c: string)
    ensures a + " " + (b + " " + c) == a + " " + b + " " + c
  {
  }
}
