/** The subagent frontmatter normaliser: block scalars become one-line double-quoted strings. */
module Frontmatter {
  import opened Options
  import opened Text

  const DELIMITER := "---\n"
  const CLOSE := "\n---\n"

  // ----- text and lines -----

  /** str.split("\n") */
  function Split(s: string): (lines: seq<string>)
    ensures lines != [] && AreLines(lines)
  {
    var k := Find(s, '\n');
    if k == |s| then [s] else [s[..k]] + Split(s[k + 1..])
  }

  function Terminated(lines: seq<string>): string {
    if lines == [] then "" else lines[0] + "\n" + Terminated(lines[1..])
  }

  lemma FindNewline(line: string, rest: string)
    requires IsLine(line)
    ensures Find(line + "\n" + rest, '\n') == |line| && Find(line, '\n') == |line|
  {
    var s := line + "\n" + rest;
    assert s[|line|] == '\n' && forall i :: 0 <= i < |line| ==> s[i] == line[i];
  }

  lemma CutAfter(line: string, rest: string)
    ensures (line + "\n" + rest)[..|line|] == line && (line + "\n" + rest)[|line| + 1..] == rest
  {
  }

  lemma {:induction false} SplitTerminated(lines: seq<string>)
    requires AreLines(lines)
    ensures Split(Terminated(lines)) == lines + [""]
  {
    if lines != [] {
      hide Find;
      var rest := Terminated(lines[1..]);
      FindNewline(lines[0], rest);
      CutAfter(lines[0], rest);
      SplitTerminated(lines[1..]);
    }
  }

  lemma {:induction false} JoinClosed(lines: seq<string>)
    requires lines != []
    ensures Join(lines, "\n") + "\n" == Terminated(lines)
    ensures Join(lines + [""], "\n") == Terminated(lines)
  {
    if |lines| > 1 {
      JoinClosed(lines[1..]);
      assert (lines + [""])[1..] == lines[1..] + [""];
    } else {
      assert (lines + [""])[1..] == [""];
    }
  }

  lemma {:induction false} JoinEnds(lines: seq<string>)
    requires lines != [] && AreLines(lines)
    ensures var s := Join(lines, "\n"); (s != "" && s[|s| - 1] == '\n') <==> |lines| >= 2 && lines[|lines| - 1] == ""
  {
    if |lines| > 1 {
      JoinEnds(lines[1..]);
      if |lines| == 2 && lines[1] == "" { assert Join(lines, "\n") == lines[0] + "\n" + ""; }
    }
  }

  // ----- delimiters -----

  predicate Closes(s: string) { CLOSE <= s }

  /** Where a line break, three dashes and a line break first stand, or the length. */
  function FirstClose(s: string): (k: nat)
    ensures k <= |s| && (k < |s| ==> k + 5 <= |s|)
  {
    if |s| < 5 then |s| else if Closes(s) then 0 else 1 + FirstClose(s[1..])
  }

  lemma {:induction false} FirstCloseIs(s: string)
    requires FirstClose(s) < |s|
    ensures s[FirstClose(s)..FirstClose(s) + 5] == CLOSE
  {
    if !Closes(s) {
      FirstCloseIs(s[1..]);
      var k := FirstClose(s[1..]);
      assert s[k + 1..k + 6] == s[1..][k..k + 5];
    }
  }

  /** Frontmatter without its delimiters, if there is any, and the rest. */
  function Parts(text: string): (p: (Option<string>, string)) {
    if !(DELIMITER <= text) then (None, text)
    else
      var end := 3 + FirstClose(text[3..]);
      if end == |text| then (None, text) else (Some(text[4..end + 1]), text[end + 5..])
  }

  predicate NoDashes(lines: seq<string>) { forall i :: 0 <= i < |lines| ==> lines[i] != "---" }

  lemma NotDashes(line: string, rest: string)
    requires IsLine(line) && line != "---"
    ensures !Closes("\n" + line + "\n" + rest)
  {
    var s := "\n" + line + "\n" + rest;
    assert s[|line| + 1] == '\n';
    if |line| < 3 {
      assert CLOSE[|line| + 1] == '-';
    } else if |line| > 3 {
      assert s[4] == line[3];
    } else {
      assert s[1..4] == line && CLOSE[1..4] == "---";
    }
  }

  lemma {:induction false} CloseSkips(line: string, rest: string)
    requires IsLine(line) && line != "---"
    ensures FirstClose("\n" + line + "\n" + rest) == 1 + |line| + FirstClose("\n" + rest)
  {
    var s := "\n" + line + "\n" + rest;
    assert s[1..] == line + ("\n" + rest);
    NotDashes(line, rest);
    LineSkips(line, "\n" + rest);
  }

  /** Nothing closes inside a line. */
  lemma {:induction false} LineSkips(line: string, rest: string)
    requires IsLine(line)
    ensures FirstClose(line + rest) == |line| + FirstClose(rest)
  {
    if line == "" {
      assert line + rest == rest;
    } else {
      var s := line + rest;
      assert s[1..] == line[1..] + rest && s[0] == line[0] != '\n';
      assert CLOSE[0] == '\n';
      LineSkips(line[1..], rest);
    }
  }

  lemma {:induction false} CloseAfter(lines: seq<string>, rest: string)
    requires AreLines(lines) && NoDashes(lines)
    ensures FirstClose("\n" + Terminated(lines) + rest) == |Terminated(lines)| + FirstClose("\n" + rest)
  {
    if lines == [] {
      assert "\n" + "" + rest == "\n" + rest;
    } else {
      var more := Terminated(lines[1..]);
      assert "\n" + Terminated(lines) + rest == "\n" + lines[0] + "\n" + (more + rest);
      CloseSkips(lines[0], more + rest);
      assert "\n" + (more + rest) == "\n" + more + rest;
      CloseAfter(lines[1..], rest);
    }
  }

  /** Frontmatter put between delimiters is read back, whatever the body holds. */
  lemma PartsOfWhole(lines: seq<string>, body: string)
    requires AreLines(lines) && NoDashes(lines)
    ensures Parts(DELIMITER + Terminated(lines) + DELIMITER + body) == (Some(Terminated(lines)), body)
  {
    hide FirstClose, Terminated;
    var fm := Terminated(lines);
    var text := DELIMITER + fm + DELIMITER + body;
    CloseAfter(lines, DELIMITER + body);
    ClosesNow(body);
    assert text[3..] == "\n" + fm + (DELIMITER + body);
    assert text[4..4 + |fm|] == fm && text[8 + |fm|..] == body;
  }

  lemma ClosesNow(body: string)
    ensures FirstClose("\n" + (DELIMITER + body)) == 0
  {
    assert "\n" + (DELIMITER + body) == CLOSE + body;
  }

  /** The line a text without a closing delimiter at its start begins with is passed over whole. */
  lemma PassLine(line: string, tail: string)
    requires IsLine(line) && !Closes("\n" + line + tail) && |"\n" + line + tail| >= 5
    ensures FirstClose("\n" + line + tail) == 1 + |line| + FirstClose(tail)
  {
    var s := "\n" + line + tail;
    assert s[1..] == line + tail;
    LineSkips(line, tail);
  }

  /** A line that stands before the first closing delimiter ends, and is not the delimiter's. */
  lemma LineBeforeClose(s: string, line: string, tail: string)
    requires s == "\n" + line + tail && IsLine(line) && (tail != "" ==> tail[0] == '\n')
    requires !Closes(s) && FirstClose(s) < |s|
    ensures tail != "" && line != "---" && FirstClose(s) == 1 + |line| + FirstClose(tail)
  {
    hide FirstClose, Closes, IsLine;
    PassLine(line, tail);
    NothingIn(tail);
    assert tail != "";
    DashesClose(tail);
  }

  lemma DashesClose(tail: string)
    requires tail != "" && tail[0] == '\n'
    ensures Closes("\n" + "---" + tail)
  {
    var s := "\n" + "---" + tail;
    assert s[4] == tail[0];
  }

  /** The line after a line break, and what follows it. */
  lemma FirstLine(s: string) returns (line: string, tail: string)
    requires s != "" && s[0] == '\n'
    ensures s == "\n" + line + tail && IsLine(line) && (tail != "" ==> tail[0] == '\n')
  {
    var rest := s[1..];
    var k := Find(rest, '\n');
    line, tail := rest[..k], rest[k..];
    assert rest == line + tail;
  }

  lemma NothingIn(s: string)
    ensures s == "" ==> FirstClose(s) == 0
  {
  }

  /** The lines before the first closing delimiter. */
  lemma {:induction false} LinesBeforeClose(s: string) returns (lines: seq<string>)
    requires s != "" && s[0] == '\n' && FirstClose(s) < |s|
    ensures AreLines(lines) && NoDashes(lines) && Terminated(lines) == s[1..FirstClose(s) + 1]
    decreases |s|
  {
    hide FirstClose, Closes;
    if Closes(s) {
      ClosedAtOnce(s);
      lines := [];
    } else {
      var line, tail := FirstLine(s);
      LineBeforeClose(s, line, tail);
      var more := LinesBeforeClose(tail);
      lines := [line] + more;
      UpToClose(line, tail, FirstClose(tail));
      assert lines[1..] == more;
    }
  }

  lemma UpToClose(line: string, tail: string, e: nat)
    requires e < |tail| && tail[0] == '\n'
    ensures ("\n" + line + tail)[1..1 + |line| + e + 1] == line + "\n" + tail[1..e + 1]
  {
    var s := "\n" + line + tail;
    assert s[1..] == line + tail;
    assert s[1..1 + |line| + e + 1] == (line + tail)[..|line| + e + 1] == line + tail[..e + 1];
    assert tail[..e + 1] == "\n" + tail[1..e + 1];
  }

  lemma ClosedAtOnce(s: string)
    requires Closes(s)
    ensures FirstClose(s) == 0 && s[1..1] == ""
  {
  }

  /**
   * Splitting is exact: frontmatter is found iff the text is delimiter, whole lines none of which is the
   * delimiter's, delimiter, body; and then those lines and that body are what is found.
   */
  lemma PartsAreExact(text: string, fm: string, body: string)
    ensures Parts(text) == (Some(fm), body) <==>
            text == DELIMITER + fm + DELIMITER + body &&
            exists lines :: AreLines(lines) && NoDashes(lines) && fm == Terminated(lines)
  {
    if Parts(text) == (Some(fm), body) {
      var lines := PartsWhole(text, fm, body);
      assert AreLines(lines) && NoDashes(lines) && fm == Terminated(lines);
    }
    if text == DELIMITER + fm + DELIMITER + body &&
      exists lines :: AreLines(lines) && NoDashes(lines) && fm == Terminated(lines) {
      var lines :| AreLines(lines) && NoDashes(lines) && fm == Terminated(lines);
      PartsOfWhole(lines, body);
    }
  }

  lemma PartsWhole(text: string, fm: string, body: string) returns (lines: seq<string>)
    requires Parts(text) == (Some(fm), body)
    ensures text == DELIMITER + fm + DELIMITER + body
    ensures AreLines(lines) && NoDashes(lines) && fm == Terminated(lines)
  {
    hide FirstClose;
    var s := text[3..];
    var k := FirstClose(s);
    assert text[3] == DELIMITER[3];
    lines := LinesBeforeClose(s);
    FirstCloseIs(s);
    assert s[1..k + 1] == fm;
    assert s[k..k + 5][1..] == CLOSE[1..] == DELIMITER;
    CutTwice(text, k);
  }

  lemma CutTwice(text: string, k: nat)
    requires k + 8 <= |text|
    ensures text[3..][k..k + 5][1..] == text[k + 4..k + 8] && text[3..][1..k + 1] == text[4..k + 4]
    ensures text == text[..4] + text[4..k + 4] + text[k + 4..k + 8] + text[k + 8..]
  {
  }
}
