/** The env file itself: its text, and the operations that rewrite it. */
module EnvFile {
  import opened Options
  import opened Text
  import opened EnvLines
  import opened EnvSetter
  import opened EnvWriter

  datatype Outcome = Done | MissingCustomBox | MissingValue(key: string)

  function LinesOf(text: Option<string>): seq<string> {
    if text.None? then [] else SplitLines(text.value)
  }

  function Block(text: Option<string>): seq<string> {
    if text.None? then [] else CustomBlock(SplitLines(text.value))
  }

  function SetText(text: string, key: string, value: string): string {
    var lines := SplitLines(text);
    Join(SetLines(lines, key, value), "\n") + (if lines != [] && lines[|lines| - 1] != "" then "\n" else "")
  }

  function FileText(header: string, generated: Pairs, custom: seq<string>): string {
    Join(FileLines(header, generated, custom) + [""], "\n")
  }

  function FirstEmpty(generated: Pairs): Option<string> {
    if generated == [] then None
    else if generated[0].1 == "" then Some(generated[0].0)
    else FirstEmpty(generated[1..])
  }

  // ----- the text and its lines -----

  lemma {:induction false} SetKeepsBreakFree(lines: seq<string>, key: string, value: string, f: Flags)
    requires AllNoBreak(lines) && WellKeyed(key) && NoBreak(value)
    ensures AllNoBreak(Set(lines, key, value, f))
    ensures lines != [] ==> Set(lines, key, value, f) != []
    ensures lines != [] && lines[|lines| - 1] == "" ==> Set(lines, key, value, f)[|Set(lines, key, value, f)| - 1] == ""
  {
    hide KeyOf, IsEnd, IsBegin;
    ConcatNoBreak(key, "=");
    ConcatNoBreak(key + "=", value);
    if lines != [] {
      MarkersAreComments(lines[0]);
      assert AllNoBreak(lines[1..]);
      SetKeepsBreakFree(lines[1..], key, value, Next(lines[0], key, f));
    }
  }

  /**
   * What is read back after a setting: the lines set, except that one empty last line is lost. So the
   * file keeps all its other lines exactly when it does not end in an empty line.
   */
  lemma SetTextReads(text: string, key: string, value: string)
    requires HasBox(SplitLines(text)) && WellKeyed(key) && NoBreak(value)
    ensures SplitLines(text) != [] && SetLines(SplitLines(text), key, value) != []
    ensures var lines, out := SplitLines(text), SetLines(SplitLines(text), key, value);
            && (lines[|lines| - 1] != "" ==> SplitLines(SetText(text, key, value)) == out)
            && (lines[|lines| - 1] == "" ==>
                 out[|out| - 1] == "" && SplitLines(SetText(text, key, value)) == out[..|out| - 1])
  {
    hide WellKeyed, Set, Join, SplitLines;
    var lines := SplitLines(text);
    SetKeepsBreakFree(lines, key, value, START);
    LinesWritten(SetLines(lines, key, value), lines[|lines| - 1] != "");
  }

  lemma {:induction false} LastStays(lines: seq<string>, key: string, value: string, f: Flags)
    requires lines != [] && lines[|lines| - 1] != ""
    ensures var out := Set(lines, key, value, f); out != [] && out[|out| - 1] != ""
  {
    hide KeyOf, IsEnd, IsBegin;
    if |lines| > 1 {
      LastStays(lines[1..], key, value, Next(lines[0], key, f));
    } else {
      assert lines[1..] == [];
    }
  }

  /** The lines that survive a setting: one empty last line does not. */
  function Kept(lines: seq<string>): seq<string> {
    if lines != [] && lines[|lines| - 1] == "" then lines[..|lines| - 1] else lines
  }

  lemma EmptyLineStays(key: string, value: string, f: Flags)
    ensures Set([""], key, value, f) == [""] && After([""], key, f) == f
  {
    hide KeyOf;
    MarkersAreComments("");
    assert [""][1..] == [];
  }

  /** What is read back, both endings at once. */
  lemma SettingReadsBack(text: string, key: string, value: string)
    requires HasBox(SplitLines(text)) && WellKeyed(key) && NoBreak(value)
    ensures var kept := Kept(SplitLines(text));
            && kept != [] && HasBox(kept) && SplitLines(SetText(text, key, value)) == SetLines(kept, key, value)
            && After(kept, key, START) == After(SplitLines(text), key, START)
            && LastWord(kept, key, START) == LastWord(SplitLines(text), key, START)
  {
    hide WellKeyed, Set, Join, SplitLines, IsBegin;
    var lines := SplitLines(text);
    SetTextReads(text, key, value);
    var i :| 0 <= i < |lines| && IsBegin(lines[i]);
    MarkersAreComments(lines[i]);
    if lines[|lines| - 1] == "" {
      var kept := lines[..|lines| - 1];
      assert lines == kept + [""] && kept[i] == lines[i];
      SetConcat(kept, [""], key, value, START);
      EmptyLineStays(key, value, After(kept, key, START));
      NoWordLast(kept, key, START);
    }
  }

  lemma {:induction false} NoWordLast(lines: seq<string>, key: string, f: Flags)
    ensures LastWord(lines + [""], key, f) == LastWord(lines, key, f)
  {
    hide KeyOf, IsEnd, IsBegin;
    if lines == [] {
      assert lines + [""] == [""] && [""][1..] == [];
      EmptyLineSaysNothing(key, f);
    } else {
      assert (lines + [""])[1..] == lines[1..] + [""];
      NoWordLast(lines[1..], key, Next(lines[0], key, f));
    }
  }

  lemma EmptyLineSaysNothing(key: string, f: Flags)
    ensures LastWord([""], key, f) == Nobody
  {
    MarkersAreComments("");
    ValueOne("", key);
    assert [""][1..] == [];
  }

  predicate EndsInTwoEmptyLines(lines: seq<string>) {
    |lines| >= 2 && lines[|lines| - 1] == "" && lines[|lines| - 2] == ""
  }

  /** Setting a value twice is setting it once, exactly when the file does not end in two empty lines. */
  lemma SettingTwiceIsOnce(text: string, key: string, value: string)
    requires HasBox(SplitLines(text)) && WellKeyed(key) && NoBreak(value)
    ensures SetText(SetText(text, key, value), key, value) == SetText(text, key, value) <==>
            !EndsInTwoEmptyLines(SplitLines(text))
  {
    hide WellKeyed, Set, Join, SplitLines, HasBox;
    var lines := SplitLines(text);
    var kept := Kept(lines);
    var out := SetLines(kept, key, value);
    SettingReadsBack(text, key, value);
    SetTextReads(text, key, value);
    SetIsIdempotent(kept, key, value, START);
    assert AllNoBreak(kept);
    SetKeepsBreakFree(kept, key, value, START);
    if kept[|kept| - 1] != "" { LastStays(kept, key, value, START); }
    JoinEmptyLast(out);
    if lines[|lines| - 1] == "" {
      assert SetLines(lines, key, value) == out + [""] by {
        assert lines == kept + [""];
        SetConcat(kept, [""], key, value, START);
        EmptyLineStays(key, value, After(kept, key, START));
      }
    }
    assert SetText(text, key, value) == Join(out, "\n") + "\n";
    assert SetText(SetText(text, key, value), key, value) ==
           Join(out, "\n") + (if out[|out| - 1] != "" then "\n" else "");
    assert |Join(out, "\n") + "\n"| == |Join(out, "\n") + ""| + 1;
  }

  /** A box followed by two empty lines: the second setting takes one of them away. */
  lemma TwoEmptyLinesAreLost(key: string, value: string)
    requires WellKeyed(key) && NoBreak(value)
    ensures var text := Join([CUSTOM_BEGIN, CUSTOM_END, "", ""], "\n") + "\n";
            && HasBox(SplitLines(text))
            && SetText(SetText(text, key, value), key, value) != SetText(text, key, value)
  {
    hide WellKeyed, SetText, Join;
    var lines := [CUSTOM_BEGIN, CUSTOM_END, "", ""];
    var text := Join(lines, "\n") + "\n";
    CustomMarkersHaveNoBreak();
    SplitJoin(lines);
    assert IsBegin(lines[0]);
    SettingTwiceIsOnce(text, key, value);
  }

  /**
   * What a setting does to a file with a CUSTOM box. Of its lines, one empty last one apart: all but the key's own
   * in CUSTOM stay, in order; the key's all read key=value, and there is one iff the setter came to write it, as it
   * always does when the boxes are closed. Parse reads whatever has the last word on the key, and what it read
   * before for any other.
   */
  lemma SettingIsExact(text: string, key: string, value: string, other: string)
    requires HasBox(SplitLines(text)) && WellKeyed(key) && NoBreak(value) && other != key
    ensures var lines, after := SplitLines(text), SplitLines(SetText(text, key, value));
            && Others(after, key, false) == Others(Kept(lines), key, false)
            && AllAre(Held(after, key, false), Assign(key, value))
            && (Held(after, key, false) != [] <==> After(lines, key, START).written)
            && (!After(lines, key, START).inside ==> After(lines, key, START).written)
            && Value(after, key) == Reading(LastWord(lines, key, START), value)
            && Value(after, other) == Value(Kept(lines), other) == Value(lines, other)
  {
    hide Set, Others, Held, Value, After, SplitLines, Join, WellKeyed, Unquote, Strip, LastWord, HasBox, Reading;
    var lines := SplitLines(text);
    var kept := Kept(lines);
    SettingReadsBack(text, key, value);
    if !After(kept, key, START).inside { ClosedIsWritten(kept, key, START); }
    SetKeepsOthers(kept, key, value, START);
    SetHolds(kept, key, value, START);
    HeldIffWritten(kept, key, value, START);
    SetIsRead(kept, key, value, START);
    SetKeepsOtherValues(kept, key, value, other, START);
    KeptReadsAlike(lines, other);
  }

  lemma KeptReadsAlike(lines: seq<string>, key: string)
    ensures Value(Kept(lines), key) == Value(lines, key)
  {
    if Kept(lines) != lines {
      assert lines == Kept(lines) + [""];
      ValueConcat(Kept(lines), [""], key);
      assert [""][1..] == [];
    }
  }

  lemma LinesWritten(out: seq<string>, closed: bool)
    requires AllNoBreak(out) && out != [] && (closed || out[|out| - 1] == "")
    ensures SplitLines(Join(out, "\n") + (if closed then "\n" else "")) == if closed then out else out[..|out| - 1]
  {
    SplitJoin(out);
    SplitJoinOpen(out);
    assert Join(out, "\n") + "" == Join(out, "\n");
  }

  lemma FileTextReads(header: string, generated: Pairs, custom: seq<string>)
    requires NoBreak(header) && CleanPairs(generated) && AllNoBreak(custom)
    ensures SplitLines(FileText(header, generated, custom)) == FileLines(header, generated, custom)
  {
    var lines := FileLines(header, generated, custom);
    assert NoBreak("# " + header) && NoBreak(AUTO_BEGIN) && NoBreak(AUTO_END) && NoBreak(CUSTOM_BEGIN) &&
      NoBreak(CUSTOM_END) by {
      AutoMarkersHaveNoBreak();
      CustomMarkersHaveNoBreak();
    }
    forall i | 0 <= i < |generated| ensures NoBreak(Assignments(generated)[i]) { }
    SplitJoinOpen(lines + [""]);
  }

  lemma ConcatNoBreak(a: string, b: string)
    requires NoBreak(a) && NoBreak(b)
    ensures NoBreak(a + b)
  {
  }

  lemma AutoMarkersHaveNoBreak()
    ensures NoBreak(AUTO_BEGIN) && NoBreak(AUTO_END)
  {
    assert NoBreak(" — rewritten") && NoBreak(" on every run,") && NoBreak(" do not edit");
    ConcatNoBreak(AUTO_BEGIN_PREFIX, " — rewritten");
    ConcatNoBreak(AUTO_BEGIN_PREFIX + " — rewritten", " on every run,");
  }

  lemma CustomMarkersHaveNoBreak()
    ensures NoBreak(CUSTOM_BEGIN) && NoBreak(CUSTOM_END)
  {
    assert NoBreak("# >>> CUSTOM") && NoBreak(" — yours to edit;") && NoBreak(" preserved across") &&
      NoBreak(" regeneration");
    ConcatNoBreak("# >>> CUSTOM", " — yours to edit;");
    ConcatNoBreak("# >>> CUSTOM" + " — yours to edit;", " preserved across");
  }

  lemma {:induction false} SeededBreakFree(custom: seq<string>, defaults: Pairs)
    requires AllNoBreak(custom) && CleanPairs(defaults)
    ensures AllNoBreak(Seeded(custom, defaults))
    decreases |defaults|
  {
    if defaults != [] {
      SeededBreakFree(SeedOne(custom, defaults[0].0, defaults[0].1), defaults[1..]);
    }
  }

  lemma BlockBreakFree(text: Option<string>)
    ensures AllNoBreak(Block(text)) && Tight(Block(text))
  {
    if text.Some? {
      BlockHasNoMarkers(SplitLines(text.value));
    }
  }

  /** No line a human owns looks like the closing marker. */
  predicate IsUnmarked(block: seq<string>) {
    forall i :: 0 <= i < |block| ==> !IsEnd(block[i])
  }

  lemma {:induction false} SeededIsLonger(custom: seq<string>, defaults: Pairs)
    ensures custom <= Seeded(custom, defaults)
    decreases |defaults|
  {
    if defaults != [] { SeededIsLonger(SeedOne(custom, defaults[0].0, defaults[0].1), defaults[1..]); }
  }

  lemma WrittenBreakFree(text: Option<string>, defaults: Pairs)
    requires CleanPairs(defaults)
    ensures AllNoBreak(Seeded(Block(text), defaults))
  {
    BlockBreakFree(text);
    SeededBreakFree(Block(text), defaults);
  }

  /** The owned lines written come back, and are already seeded, exactly when none looks like the closing marker. */
  lemma WrittenBlockComesBack(text: Option<string>, header: string, generated: Pairs, defaults: Pairs)
    requires CleanHeader(header) && CleanPairs(generated) && CleanPairs(defaults)
    ensures var custom := Seeded(Block(text), defaults);
            Seeded(Block(Some(FileText(header, generated, custom))), defaults) == custom <==> IsUnmarked(Block(text))
  {
    hide SplitLines, FileText, FileLines, CustomBlock, WellKeyed, IsEnd, IsBegin;
    var block := Block(text);
    var custom := Seeded(block, defaults);
    BlockBreakFree(text);
    WrittenBreakFree(text, defaults);
    FileTextReads(header, generated, custom);
    WrittenHasBox(header, generated, custom);
    BlockHasNoMarkers(FileLines(header, generated, custom));
    SeededKeepsUnmarked(CustomBlock(FileLines(header, generated, custom)), defaults);
    SeededIsLonger(block, defaults);
    if IsUnmarked(block) {
      if text.Some? { BlockHasNoMarkers(SplitLines(text.value)); }
      SeededIsTight(block, defaults);
      SeededKeepsUnmarked(block, defaults);
      ReadWritten(header, generated, custom);
      forall i | 0 <= i < |defaults| ensures HasKey(custom, defaults[i].0) { SeededHasKeys(block, defaults, i); }
      SeededAgain(custom, defaults);
    } else {
      var i :| 0 <= i < |block| && IsEnd(block[i]);
      assert custom[i] == block[i];
    }
  }

  lemma WrittenHasBox(header: string, generated: Pairs, custom: seq<string>)
    ensures HasBox(FileLines(header, generated, custom))
  {
    var b := Before(header, generated);
    assert FileLines(header, generated, custom)[|b| - 1] == CUSTOM_BEGIN;
  }

  /** Files of equally many generated lines hold the same text exactly when they hold the same lines. */
  lemma FileTextIsInjective(header: string, g: Pairs, custom: seq<string>, h: Pairs, other: seq<string>)
    requires NoBreak(header) && CleanPairs(g) && CleanPairs(h) && |g| == |h| && AllNoBreak(custom) && AllNoBreak(other)
    ensures FileText(header, g, custom) == FileText(header, h, other) <==>
            Assignments(g) == Assignments(h) && custom == other
  {
    hide SplitLines, WellKeyed;
    FileTextReads(header, g, custom);
    FileTextReads(header, h, other);
    var n := 2 + |g|;
    if FileText(header, g, custom) == FileText(header, h, other) {
      var lines := FileLines(header, g, custom);
      assert lines == FileLines(header, h, other);
      assert lines[2..n] == Assignments(g) && lines[2..n] == Assignments(h);
      assert lines[n + 3..|lines| - 1] == custom && lines[n + 3..|lines| - 1] == other;
    }
  }

  function Rewritten(text: Option<string>, header: string, generated: Pairs, defaults: Pairs): string {
    FileText(header, generated, Seeded(Block(text), defaults))
  }

  /** Writing the file it just wrote changes nothing, exactly when no owned line looks like the closing marker. */
  lemma WritingTwiceIsOnce(text: Option<string>, header: string, generated: Pairs, defaults: Pairs)
    requires CleanHeader(header) && CleanPairs(generated) && CleanPairs(defaults)
    ensures var once := Rewritten(text, header, generated, defaults);
            Rewritten(Some(once), header, generated, defaults) == once <==> IsUnmarked(Block(text))
  {
    hide FileText, Seeded, Block, IsUnmarked, WellKeyed;
    var once := Rewritten(text, header, generated, defaults);
    WrittenBlockComesBack(text, header, generated, defaults);
    WrittenBreakFree(text, defaults);
    WrittenBreakFree(Some(once), defaults);
    FileTextIsInjective(
      header, generated, Seeded(Block(Some(once)), defaults), generated, Seeded(Block(text), defaults));
  }

  lemma {:induction false} SeededKeepsUnmarked(custom: seq<string>, defaults: Pairs)
    requires CleanPairs(defaults) && forall i :: 0 <= i < |custom| ==> !IsBegin(custom[i]) && !IsEnd(custom[i])
    ensures forall i :: 0 <= i < |Seeded(custom, defaults)| ==>
            !IsBegin(Seeded(custom, defaults)[i]) && !IsEnd(Seeded(custom, defaults)[i])
    decreases |defaults|
  {
    if defaults != [] {
      AssignIsKeyLine(defaults[0].0, defaults[0].1);
      SeededKeepsUnmarked(SeedOne(custom, defaults[0].0, defaults[0].1), defaults[1..]);
    }
  }

  // ----- the loops -----

  method FindBox(lines: seq<string>) returns (found: bool)
    ensures found == HasBox(lines)
  {
    found := false;
    for i := 0 to |lines|
      invariant found == exists k :: 0 <= k < i && IsBegin(lines[k])
    {
      found := found || IsBegin(lines[i]);
    }
  }

  /** Drops leading and trailing blank lines. */
  method TrimLines(lines: seq<string>) returns (kept: seq<string>)
    ensures kept == Trimmed(lines)
  {
    kept := lines;
    while kept != [] && IsBlank(kept[0])
      invariant TrimFront(kept) == TrimFront(lines)
      decreases |kept|
    {
      kept := kept[1..];
    }
    while kept != [] && IsBlank(kept[|kept| - 1])
      invariant TrimBack(kept) == TrimBack(TrimFront(lines))
      decreases |kept|
    {
      kept := kept[..|kept| - 1];
    }
  }

  method CollectCustom(lines: seq<string>) returns (kept: seq<string>)
    ensures kept == CustomLines(lines, false)
  {
    kept := [];
    var inside := false;
    for i := 0 to |lines|
      invariant kept + CustomLines(lines[i..], inside) == CustomLines(lines, false)
    {
      assert lines[i..][1..] == lines[i + 1..];
      if IsBegin(lines[i]) {
        inside := true;
        continue;
      }
      if IsEnd(lines[i]) {
        inside := false;
        continue;
      }
      if inside {
        kept := kept + [lines[i]];
      }
    }
    assert lines[|lines|..] == [];
  }

  method CollectLegacy(lines: seq<string>) returns (kept: seq<string>)
    ensures kept == LegacyLines(lines, false)
  {
    kept := [];
    var insideAuto := false;
    for i := 0 to |lines|
      invariant kept + LegacyLines(lines[i..], insideAuto) == LegacyLines(lines, false)
    {
      assert lines[i..][1..] == lines[i + 1..];
      if IsAutoBegin(lines[i]) {
        insideAuto := true;
        continue;
      }
      if IsAutoEnd(lines[i]) {
        insideAuto := false;
        continue;
      }
      if !insideAuto {
        kept := kept + [lines[i]];
      }
    }
    assert lines[|lines|..] == [];
  }

  lemma SetUnrolls(lines: seq<string>, key: string, value: string, f: Flags, i: nat)
    requires i < |lines|
    ensures Set(lines[i..], key, value, f) ==
            Emit(lines[i], key, value, f) + Set(lines[i + 1..], key, value, Next(lines[i], key, f))
  {
    assert lines[i..][1..] == lines[i + 1..];
  }

  lemma NothingSet(key: string, value: string)
    ensures forall f :: Set([], key, value, f) == []
  {
  }

  method SetLoop(lines: seq<string>, key: string, value: string) returns (out: seq<string>)
    ensures out == SetLines(lines, key, value)
  {
    hide Set, KeyOf, HasEq, Assign;
    NothingSet(key, value);
    out := [];
    var inside, written := false, false;
    for i := 0 to |lines|
      invariant out + Set(lines[i..], key, value, Flags(inside, written)) == SetLines(lines, key, value)
    {
      var line := lines[i];
      SetUnrolls(lines, key, value, Flags(inside, written), i);
      if !inside {
        out := out + [line];
        if IsBegin(line) {
          inside := true;
        }
        continue;
      }
      if IsEnd(line) {
        if !written {
          out := out + [Assign(key, value)];
          written := true;
        }
        out := out + [line];
        inside := false;
        continue;
      }
      if IsKeyLine(line, key) {
        out := out + [Assign(key, value)];
        written := true;
      } else {
        out := out + [line];
      }
    }
    assert lines[|lines|..] == [];
  }

  class File {
    /** None while the file does not exist. */
    var text: Option<string>

    constructor (text: Option<string>)
      ensures this.text == text
    {
      this.text := text;
    }

    method ReadCustomBlock() returns (block: seq<string>)
      ensures block == Block(text)
    {
      if text.None? {
        return [];
      }
      var lines := SplitLines(text.value);
      var boxed := FindBox(lines);
      if boxed {
        block := CollectCustom(lines);
      } else {
        block := CollectLegacy(lines);
      }
      block := TrimLines(block);
    }

    /** Refuses a missing file or box; otherwise rewrites the file with the key set in CUSTOM only. */
    method SetCustomValue(key: string, value: string) returns (o: Outcome)
      modifies this
      ensures o == (if old(text).Some? && HasBox(SplitLines(old(text).value)) then Done else MissingCustomBox)
      ensures text == if o == Done then Some(SetText(old(text).value, key, value)) else old(text)
    {
      if text.None? {
        return MissingCustomBox;
      }
      var lines := SplitLines(text.value);
      var boxed := FindBox(lines);
      if !boxed {
        return MissingCustomBox;
      }
      var out := SetLoop(lines, key, value);
      text := Some(Join(out, "\n") + (if lines != [] && lines[|lines| - 1] != "" then "\n" else ""));
      return Done;
    }

    /** A fresh AUTO box, the owned block kept and seeded per key. Nothing is written if a value is empty. */
    method WriteEnvFile(header: string, generated: Pairs, defaults: Pairs) returns (o: Outcome)
      modifies this
      ensures o == (if FirstEmpty(generated).Some? then MissingValue(FirstEmpty(generated).value) else Done)
      ensures text == if o == Done then Some(FileText(header, generated, Seeded(Block(old(text)), defaults)))
              else old(text)
    {
      for i := 0 to |generated|
        invariant FirstEmpty(generated) == FirstEmpty(generated[i..])
      {
        if generated[i].1 == "" {
          return MissingValue(generated[i].0);
        }
        assert generated[i..][1..] == generated[i + 1..];
      }
      var custom := ReadCustomBlock();
      for i := 0 to |defaults|
        invariant Seeded(custom, defaults[i..]) == Seeded(Block(text), defaults)
        invariant text == old(text)
      {
        assert defaults[i..][1..] == defaults[i + 1..];
        if !HasKey(custom, defaults[i].0) {
          custom := custom + [Assign(defaults[i].0, defaults[i].1)];
        }
      }
      text := Some(Join(Before(header, generated) + custom + [CUSTOM_END, ""], "\n"));
      assert Before(header, generated) + custom + [CUSTOM_END, ""] == FileLines(header, generated, custom) + [""];
      return Done;
    }

    /** Every active assignment of both boxes, the last one winning. */
    method Parse() returns (env: map<string, string>)
      ensures forall key :: key in env <==> Value(LinesOf(text), key).Some?
      ensures forall key :: key in env ==> env[key] == Value(LinesOf(text), key).value
    {
      env := map[];
      var lines := LinesOf(text);
      for i := 0 to |lines|
        invariant forall key :: key in env <==> Value(lines[..i], key).Some?
        invariant forall key :: key in env ==> env[key] == Value(lines[..i], key).value
      {
        var before := lines[..i];
        assert lines[..i + 1] == before + [lines[i]];
        forall key ensures Value(before + [lines[i]], key) ==
            if Value([lines[i]], key).Some? then Value([lines[i]], key) else Value(before, key) {
          ValueConcat(before, [lines[i]], key);
        }
        forall key ensures Value([lines[i]], key) ==
            if Active(lines[i]).Some? && Active(lines[i]).value.0 == key then Some(Active(lines[i]).value.1) else None {
          ValueOne(lines[i], key);
        }
        var a := Active(lines[i]);
        if a.Some? {
          env := env[a.value.0 := a.value.1];
        }
      }
      assert lines[..|lines|] == lines;
    }
  }
}
