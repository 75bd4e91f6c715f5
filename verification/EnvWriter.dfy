/** `read_custom_block` and `write_env_file` on lines: the boxes round-trip. */
module EnvWriter {
  import opened Options
  import opened Text
  import opened EnvLines

  type Pairs = seq<(string, string)>

  /** The lines inside the CUSTOM boxes, markers dropped. */
  function CustomLines(lines: seq<string>, inside: bool): seq<string> {
    if lines == [] then []
    else if IsBegin(lines[0]) then CustomLines(lines[1..], true)
    else if IsEnd(lines[0]) then CustomLines(lines[1..], false)
    else (if inside then [lines[0]] else []) + CustomLines(lines[1..], inside)
  }

  /** A file that predates the markers: every line outside the AUTO box. */
  function LegacyLines(lines: seq<string>, insideAuto: bool): seq<string> {
    if lines == [] then []
    else if IsAutoBegin(lines[0]) then LegacyLines(lines[1..], true)
    else if IsAutoEnd(lines[0]) then LegacyLines(lines[1..], false)
    else (if insideAuto then [] else [lines[0]]) + LegacyLines(lines[1..], insideAuto)
  }

  function TrimFront(lines: seq<string>): seq<string> {
    if lines != [] && IsBlank(lines[0]) then TrimFront(lines[1..]) else lines
  }

  function Trimmed(lines: seq<string>): seq<string> {
    TrimBack(TrimFront(lines))
  }

  /** The lines a human owns. */
  function CustomBlock(lines: seq<string>): seq<string> {
    Trimmed(if HasBox(lines) then CustomLines(lines, false) else LegacyLines(lines, false))
  }

  predicate HasKey(lines: seq<string>, key: string) {
    exists i :: 0 <= i < |lines| && IsKeyLine(lines[i], key)
  }

  /** A default is appended unless a line, even a commented one, holds its key. */
  function SeedOne(custom: seq<string>, key: string, value: string): seq<string> {
    if HasKey(custom, key) then custom else custom + [Assign(key, value)]
  }

  function Seeded(custom: seq<string>, defaults: Pairs): seq<string>
    decreases |defaults|
  {
    if defaults == [] then custom else Seeded(SeedOne(custom, defaults[0].0, defaults[0].1), defaults[1..])
  }

  /** The defaults whose key no line of the block holds. */
  function Missing(custom: seq<string>, defaults: Pairs): seq<string> {
    if defaults == [] then []
    else
      (if HasKey(custom, defaults[0].0) then [] else [Assign(defaults[0].0, defaults[0].1)]) +
      Missing(custom, defaults[1..])
  }

  function Assignments(pairs: Pairs): seq<string> {
    seq(|pairs|, i requires 0 <= i < |pairs| => Assign(pairs[i].0, pairs[i].1))
  }

  function Before(header: string, generated: Pairs): seq<string> {
    ["# " + header, AUTO_BEGIN] + Assignments(generated) + [AUTO_END, "", CUSTOM_BEGIN]
  }

  /** The lines of the file written: header, a fresh AUTO box, the CUSTOM box. */
  function FileLines(header: string, generated: Pairs, custom: seq<string>): seq<string> {
    Before(header, generated) + custom + [CUSTOM_END]
  }

  /** The first AUTO box of a file. */
  function AutoBox(lines: seq<string>, inside: bool): seq<string> {
    if lines == [] then []
    else if !inside then AutoBox(lines[1..], IsAutoBegin(lines[0]))
    else if IsAutoEnd(lines[0]) then []
    else [lines[0]] + AutoBox(lines[1..], true)
  }

  /** Arguments that cannot be mistaken for markers and name readable keys. */
  predicate CleanPairs(pairs: Pairs) {
    forall i :: 0 <= i < |pairs| ==> WellKeyed(pairs[i].0) && NoBreak(pairs[i].1)
  }

  predicate DistinctKeys(pairs: Pairs) {
    forall i, j :: 0 <= i < j < |pairs| ==> pairs[i].0 != pairs[j].0
  }

  predicate CleanHeader(header: string) {
    NoBreak(header) && !IsBegin("# " + header) && !IsAutoBegin("# " + header)
  }

  // ----- reading a block back -----

  lemma {:induction false} SkipOutside(a: seq<string>, b: seq<string>)
    requires forall i :: 0 <= i < |a| ==> !IsBegin(a[i])
    ensures CustomLines(a + b, false) == CustomLines(b, false)
  {
    if a == [] {
      assert a + b == b;
    } else {
      assert (a + b)[1..] == a[1..] + b;
      SkipOutside(a[1..], b);
    }
  }

  lemma {:induction false} KeepInside(c: seq<string>, b: seq<string>)
    requires forall i :: 0 <= i < |c| ==> !IsBegin(c[i]) && !IsEnd(c[i])
    ensures CustomLines(c + b, true) == c + CustomLines(b, true)
  {
    if c == [] {
      assert c + b == b;
    } else {
      assert (c + b)[1..] == c[1..] + b;
      KeepInside(c[1..], b);
    }
  }

  lemma MarkersDiffer()
    ensures !IsBegin(AUTO_BEGIN) && !IsEnd(AUTO_BEGIN) && IsAutoBegin(AUTO_BEGIN)
    ensures !IsBegin(AUTO_END) && !IsAutoBegin(AUTO_END) && IsAutoEnd(AUTO_END) && !IsBegin("") && !IsAutoBegin("")
    ensures IsBegin(CUSTOM_BEGIN) && IsEnd(CUSTOM_END) && !IsBegin(CUSTOM_END) && !IsAutoBegin(CUSTOM_BEGIN)
  {
    assert AUTO_BEGIN[6] == 'A' && CUSTOM_BEGIN[6] == 'C' && CUSTOM_END[6] == 'E' && AUTO_END[6] == 'E';
    assert AUTO_BEGIN[2] == '>' && AUTO_END[2] == '<' && CUSTOM_END[2] == '<' && CUSTOM_BEGIN[2] == '>';
  }

  lemma BeforeHasNoBegin(header: string, generated: Pairs)
    requires CleanHeader(header) && CleanPairs(generated)
    ensures var b := Before(header, generated);
            && b[|b| - 1] == CUSTOM_BEGIN
            && forall i :: 0 <= i < |b| - 1 ==> !IsBegin(b[i])
  {
    MarkersDiffer();
    forall i | 0 <= i < |generated| ensures !IsBegin(Assignments(generated)[i]) {
      AssignIsKeyLine(generated[i].0, generated[i].1);
    }
  }

  /** The CUSTOM lines of a written file, whatever the block was. */
  lemma WrittenCustomLines(header: string, generated: Pairs, custom: seq<string>)
    requires CleanHeader(header) && CleanPairs(generated)
    ensures HasBox(FileLines(header, generated, custom))
    ensures CustomLines(FileLines(header, generated, custom), false) == CustomLines(custom + [CUSTOM_END], true)
  {
    MarkersDiffer();
    var b := Before(header, generated);
    BeforeHasNoBegin(header, generated);
    var tail := [CUSTOM_BEGIN] + (custom + [CUSTOM_END]);
    assert FileLines(header, generated, custom) == b[..|b| - 1] + tail;
    assert FileLines(header, generated, custom)[|b| - 1] == CUSTOM_BEGIN;
    SkipOutside(b[..|b| - 1], tail);
    assert tail[1..] == custom + [CUSTOM_END];
  }

  lemma {:induction false} CustomLinesShrink(lines: seq<string>, inside: bool)
    ensures |CustomLines(lines, inside)| <= |lines|
    ensures (exists i :: 0 <= i < |lines| && (IsBegin(lines[i]) || IsEnd(lines[i]))) ==>
            |CustomLines(lines, inside)| < |lines|
  {
    if lines != [] {
      if IsBegin(lines[0]) {
        CustomLinesShrink(lines[1..], true);
      } else if IsEnd(lines[0]) {
        CustomLinesShrink(lines[1..], false);
      } else {
        CustomLinesShrink(lines[1..], inside);
        if i :| 0 <= i < |lines| && (IsBegin(lines[i]) || IsEnd(lines[i])) {
          assert lines[1..][i - 1] == lines[i];
        }
      }
    }
  }

  lemma {:induction false} CustomLinesPrefix(lines: seq<string>, inside: bool)
    ensures |CustomLines(lines + [CUSTOM_END], inside)| == |CustomLines(lines, inside)|
  {
    MarkersDiffer();
    if lines == [] {
      assert lines + [CUSTOM_END] == [CUSTOM_END] && [CUSTOM_END][1..] == [];
    } else {
      assert (lines + [CUSTOM_END])[1..] == lines[1..] + [CUSTOM_END];
      CustomLinesPrefix(lines[1..], if IsBegin(lines[0]) then true else if IsEnd(lines[0]) then false else inside);
    }
  }

  // ----- trimming -----

  predicate Tight(lines: seq<string>) {
    lines == [] || (!IsBlank(lines[0]) && !IsBlank(lines[|lines| - 1]))
  }

  lemma {:induction false} TrimFrontIs(lines: seq<string>)
    ensures |TrimFront(lines)| <= |lines| && TrimFront(lines) == lines[|lines| - |TrimFront(lines)|..]
    ensures TrimFront(lines) == [] || !IsBlank(TrimFront(lines)[0])
  {
    if lines != [] && IsBlank(lines[0]) { TrimFrontIs(lines[1..]); }
  }

  lemma TrimmedIsTight(lines: seq<string>)
    ensures Tight(Trimmed(lines)) && |Trimmed(lines)| <= |lines|
    ensures forall i :: 0 <= i < |Trimmed(lines)| ==> Trimmed(lines)[i] in lines
  {
    TrimFrontIs(lines);
    TrimBackIs(TrimFront(lines));
  }

  lemma TightIsTrimmed(lines: seq<string>)
    requires Tight(lines)
    ensures Trimmed(lines) == lines
  {
  }

  // ----- seeding -----

  lemma {:induction false} SeededIsTight(custom: seq<string>, defaults: Pairs)
    requires Tight(custom) && CleanPairs(defaults)
    ensures Tight(Seeded(custom, defaults))
    decreases |defaults|
  {
    if defaults != [] {
      AssignIsKeyLine(defaults[0].0, defaults[0].1);
      SeededIsTight(SeedOne(custom, defaults[0].0, defaults[0].1), defaults[1..]);
    }
  }

  lemma HasKeyAppend(custom: seq<string>, key: string, value: string, other: string)
    requires WellKeyed(key)
    ensures HasKey(custom + [Assign(key, value)], other) <==> HasKey(custom, other) || other == key
  {
    AssignIsKeyLine(key, value);
    var all := custom + [Assign(key, value)];
    assert all[|custom|] == Assign(key, value);
    if HasKey(custom, other) {
      var i :| 0 <= i < |custom| && IsKeyLine(custom[i], other);
      assert all[i] == custom[i];
    }
  }

  lemma {:induction false} MissingUnchanged(custom: seq<string>, key: string, value: string, defaults: Pairs)
    requires WellKeyed(key) && forall i :: 0 <= i < |defaults| ==> defaults[i].0 != key
    ensures Missing(custom + [Assign(key, value)], defaults) == Missing(custom, defaults)
  {
    if defaults != [] {
      HasKeyAppend(custom, key, value, defaults[0].0);
      MissingUnchanged(custom, key, value, defaults[1..]);
    }
  }

  lemma SeedOneAppends(custom: seq<string>, key: string, value: string, rest: Pairs)
    requires WellKeyed(key) && forall i :: 0 <= i < |rest| ==> rest[i].0 != key
    ensures SeedOne(custom, key, value) + Missing(SeedOne(custom, key, value), rest) ==
            custom + Missing(custom, [(key, value)] + rest)
  {
    assert ([(key, value)] + rest)[1..] == rest;
    if !HasKey(custom, key) {
      MissingUnchanged(custom, key, value, rest);
    }
  }

  /** Seeding appends exactly the defaults whose key is absent, in their order. */
  lemma {:induction false} SeededAppendsMissing(custom: seq<string>, defaults: Pairs)
    requires CleanPairs(defaults) && DistinctKeys(defaults)
    ensures Seeded(custom, defaults) == custom + Missing(custom, defaults)
    decreases |defaults|
  {
    if defaults != [] {
      var (key, value) := defaults[0];
      SeededAppendsMissing(SeedOne(custom, key, value), defaults[1..]);
      SeedOneAppends(custom, key, value, defaults[1..]);
      assert defaults == [(key, value)] + defaults[1..];
    }
  }

  lemma {:induction false} SeededKeepsKey(custom: seq<string>, defaults: Pairs, key: string)
    requires HasKey(custom, key) && CleanPairs(defaults)
    ensures HasKey(Seeded(custom, defaults), key)
    decreases |defaults|
  {
    if defaults != [] {
      HasKeyAppend(custom, defaults[0].0, defaults[0].1, key);
      SeededKeepsKey(SeedOne(custom, defaults[0].0, defaults[0].1), defaults[1..], key);
    }
  }

  lemma {:induction false} SeededHasKeys(custom: seq<string>, defaults: Pairs, i: nat)
    requires CleanPairs(defaults) && i < |defaults|
    ensures HasKey(Seeded(custom, defaults), defaults[i].0)
    decreases |defaults|
  {
    var (key, value) := defaults[0];
    HasKeyAppend(custom, key, value, key);
    if i == 0 {
      SeededKeepsKey(SeedOne(custom, key, value), defaults[1..], key);
    } else {
      SeededHasKeys(SeedOne(custom, key, value), defaults[1..], i - 1);
    }
  }

  lemma {:induction false} SeededAgain(custom: seq<string>, defaults: Pairs)
    requires forall i :: 0 <= i < |defaults| ==> HasKey(custom, defaults[i].0)
    ensures Seeded(custom, defaults) == custom
  {
    if defaults != [] {
      assert forall i :: 0 <= i < |defaults[1..]| ==> defaults[1..][i] == defaults[i + 1];
      SeededAgain(custom, defaults[1..]);
    }
  }

  lemma {:induction false} MissingAreAssignments(custom: seq<string>, defaults: Pairs)
    requires CleanPairs(defaults)
    ensures forall i :: 0 <= i < |Missing(custom, defaults)| ==>
              var line := Missing(custom, defaults)[i]; !IsBegin(line) && !IsEnd(line) && NoBreak(line)
  {
    hide IsBlank, KeyOf;
    if defaults != [] {
      AssignIsKeyLine(defaults[0].0, defaults[0].1);
      MissingAreAssignments(custom, defaults[1..]);
    }
  }

  // ----- the round trip -----

  lemma {:induction false} CustomLinesHaveNoMarkers(lines: seq<string>, inside: bool)
    ensures forall i :: 0 <= i < |CustomLines(lines, inside)| ==>
              !IsBegin(CustomLines(lines, inside)[i]) && !IsEnd(CustomLines(lines, inside)[i]) &&
                CustomLines(lines, inside)[i] in lines
  {
    if lines != [] {
      CustomLinesHaveNoMarkers(
        lines[1..], if IsBegin(lines[0]) then true else if IsEnd(lines[0]) then false else inside);
    }
  }

  lemma {:induction false} LegacyLinesAreLines(lines: seq<string>, insideAuto: bool)
    ensures forall i :: 0 <= i < |LegacyLines(lines, insideAuto)| ==> LegacyLines(lines, insideAuto)[i] in lines
  {
    if lines != [] {
      LegacyLinesAreLines(
        lines[1..], if IsAutoBegin(lines[0]) then true else if IsAutoEnd(lines[0]) then false else insideAuto);
    }
  }

  /** A block never holds an opening marker, and holds a closing one only in a legacy file. */
  lemma BlockHasNoMarkers(lines: seq<string>)
    ensures forall i :: 0 <= i < |CustomBlock(lines)| ==>
              !IsBegin(CustomBlock(lines)[i]) && CustomBlock(lines)[i] in lines &&
                (HasBox(lines) ==> !IsEnd(CustomBlock(lines)[i]))
    ensures Tight(CustomBlock(lines))
  {
    CustomLinesHaveNoMarkers(lines, false);
    LegacyLinesAreLines(lines, false);
    TrimmedIsTight(if HasBox(lines) then CustomLines(lines, false) else LegacyLines(lines, false));
  }

  lemma ReadWritten(header: string, generated: Pairs, custom: seq<string>)
    requires CleanHeader(header) && CleanPairs(generated) && Tight(custom)
    requires forall i :: 0 <= i < |custom| ==> !IsBegin(custom[i]) && !IsEnd(custom[i])
    ensures CustomBlock(FileLines(header, generated, custom)) == custom
  {
    MarkersDiffer();
    WrittenCustomLines(header, generated, custom);
    KeepInside(custom, [CUSTOM_END]);
    assert [CUSTOM_END][1..] == [];
    TightIsTrimmed(custom);
  }

  /**
   * The block read back from a written file is the old block and the missing defaults, exactly when no
   * owned line looks like the closing marker; a file that already has the markers cannot hold one.
   */
  lemma BoxRoundTrips(lines: seq<string>, header: string, generated: Pairs, defaults: Pairs)
    requires CleanHeader(header) && CleanPairs(generated) && CleanPairs(defaults) && DistinctKeys(defaults)
    ensures var block := CustomBlock(lines);
            (CustomBlock(FileLines(header, generated, Seeded(block, defaults))) == block + Missing(block, defaults))
            <==> (forall i :: 0 <= i < |block| ==> !IsEnd(block[i]))
    ensures HasBox(lines) ==> forall i :: 0 <= i < |CustomBlock(lines)| ==> !IsEnd(CustomBlock(lines)[i])
  {
    var block := CustomBlock(lines);
    var custom := Seeded(block, defaults);
    BlockHasNoMarkers(lines);
    SeededAppendsMissing(block, defaults);
    SeededIsTight(block, defaults);
    MissingAreAssignments(block, defaults);
    if forall i :: 0 <= i < |block| ==> !IsEnd(block[i]) {
      ReadWritten(header, generated, custom);
    } else {
      var i :| 0 <= i < |block| && IsEnd(block[i]);
      assert custom[i] == block[i];
      WrittenCustomLines(header, generated, custom);
      CustomLinesPrefix(custom, true);
      CustomLinesShrink(custom, true);
      TrimmedIsTight(CustomLines(FileLines(header, generated, custom), false));
    }
  }

  lemma LegacyStep(line: string, rest: seq<string>)
    requires !IsAutoBegin(line) && !IsAutoEnd(line)
    ensures LegacyLines([line] + rest, false) == [line] + LegacyLines(rest, false)
  {
    assert ([line] + rest)[1..] == rest;
  }

  lemma CustomEnd(rest: seq<string>, inside: bool)
    ensures CustomLines([CUSTOM_END] + rest, inside) == CustomLines(rest, false)
  {
    MarkersDiffer();
    assert ([CUSTOM_END] + rest)[1..] == rest;
  }

  /** A file without markers, one of whose lines looks like the closing one: what follows that line is lost. */
  lemma LegacyMarkerIsLost(header: string)
    requires CleanHeader(header)
    ensures var lines := ["A=1", CUSTOM_END, "B=2"];
            CustomBlock(lines) == lines && CustomBlock(FileLines(header, [], lines)) == ["A=1"]
  {
    hide IsBlank, LegacyLines, CustomLines, IsBegin, IsEnd, IsAutoBegin, IsAutoEnd, FileLines, Before;
    var lines, end := ["A=1", CUSTOM_END, "B=2"], [CUSTOM_END];
    MarkersDiffer();
    KeyLinesAreNoMarkers();
    LegacyStep("B=2", []);
    LegacyStep(CUSTOM_END, ["B=2"]);
    LegacyStep("A=1", [CUSTOM_END, "B=2"]);
    assert LegacyLines([], false) == [] by { NoLines(); }
    assert ["B=2"] + [] == ["B=2"] && [CUSTOM_END] + ["B=2"] == [CUSTOM_END, "B=2"];
    assert ["A=1"] + [CUSTOM_END, "B=2"] == lines;
    TightIsTrimmed(lines);
    WrittenCustomLines(header, [], lines);
    KeepInside(["A=1"], [CUSTOM_END, "B=2", CUSTOM_END]);
    assert lines + end == ["A=1"] + [CUSTOM_END, "B=2", CUSTOM_END];
    CustomEnd(["B=2", CUSTOM_END], true);
    SkipOutside(["B=2"], end);
    CustomEnd([], false);
    assert ["B=2"] + end == ["B=2", CUSTOM_END] && end + [] == end;
    assert [CUSTOM_END] + ["B=2", CUSTOM_END] == [CUSTOM_END, "B=2", CUSTOM_END];
    assert CustomLines([], false) == [] by { NoLines(); }
    assert ["A=1"] + [] == ["A=1"];
    TightIsTrimmed(["A=1"]);
  }

  lemma NoLines()
    ensures LegacyLines([], false) == [] && CustomLines([], false) == []
  {
  }

  lemma KeyLinesAreNoMarkers()
    ensures forall line :: line == "A=1" || line == "B=2" || line == CUSTOM_END ==>
              !IsAutoBegin(line) && !IsAutoEnd(line) && !IsBegin(line) && (IsEnd(line) <==> line == CUSTOM_END)
    ensures !IsBlank("A=1") && !IsBlank("B=2")
  {
    MarkersDiffer();
    assert CUSTOM_END[0] == '#' && CUSTOM_BEGIN[0] == '#' && AUTO_BEGIN_PREFIX[0] == '#' && AUTO_END[0] == '#';
    assert CUSTOM_END[2] == '<' && AUTO_BEGIN_PREFIX[2] == '>' && CUSTOM_END[10] == 'C' && AUTO_END[10] == 'A';
    NonSpaceIsNotBlank("A=1", 0);
    NonSpaceIsNotBlank("B=2", 0);
  }

  lemma {:induction false} AutoBoxReads(gens: seq<string>, rest: seq<string>)
    requires forall i :: 0 <= i < |gens| ==> !IsAutoEnd(gens[i])
    ensures AutoBox(gens + [AUTO_END] + rest, true) == gens
  {
    MarkersDiffer();
    var all := gens + [AUTO_END] + rest;
    if gens != [] {
      assert all[1..] == gens[1..] + [AUTO_END] + rest;
      AutoBoxReads(gens[1..], rest);
    }
  }

  /** The AUTO box of a written file is exactly what was generated. */
  lemma AutoBoxIsGenerated(header: string, generated: Pairs, custom: seq<string>)
    requires CleanHeader(header) && CleanPairs(generated)
    ensures AutoBox(FileLines(header, generated, custom), false) == Assignments(generated)
  {
    MarkersDiffer();
    var gens := Assignments(generated);
    forall i | 0 <= i < |gens| ensures !IsAutoEnd(gens[i]) { AssignIsKeyLine(generated[i].0, generated[i].1); }
    var rest := ["", CUSTOM_BEGIN] + custom + [CUSTOM_END];
    var lines := FileLines(header, generated, custom);
    assert lines == ["# " + header] + ([AUTO_BEGIN] + (gens + [AUTO_END] + rest));
    assert lines[1..] == [AUTO_BEGIN] + (gens + [AUTO_END] + rest);
    assert lines[1..][1..] == gens + [AUTO_END] + rest;
    AutoBoxReads(gens, rest);
  }
}
