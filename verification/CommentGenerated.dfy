/** A generated file whose marker is pushed past the header: the linter starts to look at it. */
module CommentGenerated {
  import opened Options
  import opened Text
  import opened CommentScanner
  import opened CommentBlocks
  import opened CommentChecks
  import opened CommentRatchet
  import opened CommentMoves

  const MAX_BLOCK_LINES := 12

  function LengthText(n: nat): string {
    "length: block " + Digits(n) + " lines exceeds hard " + "max " + Digits(MAX_BLOCK_LINES) + "; move narrative " +
    "to the vault"
  }

  /** The hard limit of the length check, on a block that is not exempt. */
  function TooLong(bodies: seq<string>, raw: seq<string>): seq<string> {
    if |raw| > MAX_BLOCK_LINES then [LengthText(|raw|)] else []
  }

  /** The rules with that check alone. */
  function OnlyLength(rules: Rules): Rules { rules.(checks := [Whole(TooLong)]) }

  const MARKED_LINE := "// " + "Code generated by" + " protoc-gen-go. " + "DO NOT EDIT."

  /** A Go file: the marker, and a comment of thirteen more lines under it. */
  function GeneratedFile(): seq<string> {
    seq(14, i => if i == 0 then MARKED_LINE else "// a field")
  }

  function EmptyLines(n: nat): seq<string> { seq(n, _ => "") }

  function PushedDown(path: string): Edit { Edit(path, Go, [], EmptyLines(HEADER_LINES), GeneratedFile()) }

  lemma {:induction false} EmptyIsQuiet(n: nat, lang: Lang)
    ensures IsQuiet(EmptyLines(n), Code, lang)
  {
    var lines := EmptyLines(n);
    if n > 0 {
      EmptyIsQuiet(n - 1, lang);
      assert lines[1..] == EmptyLines(n - 1);
      assert Pieces("", Code, lang) == [] && After("", Code, lang) == Code;
    }
  }

  lemma {:induction false} SlashesAreComments(lines: seq<string>)
    requires forall i :: 0 <= i < |lines| ==> "//" <= lines[i]
    ensures forall i :: 0 <= i < |lines| ==> Bodies(lines, Code, Go)[i].Some?
  {
    hide Pieces, After, Body;
    if lines != [] {
      OpensReads(lines[0], Go);
      SomeBody(lines[0][2..]);
      SlashesAreComments(lines[1..]);
    }
  }

  lemma SomeBody(piece: string)
    ensures Body([piece], false).Some?
  {
  }

  /** A file that is one comment throughout has one block. */
  lemma OneBlock(lines: seq<string>, found: seq<Option<string>>)
    requires |found| == |lines| > 0 && (forall i :: 0 <= i < |found| ==> found[i].Some?)
    requires !IsBlank(lines[|lines| - 1])
    ensures Blocks(lines, found, 0) == [CommentBlock(1, |lines|, |lines|, Texts(found), lines)]
  {
    hide IsBlank;
    var n := RunEnd(found, 0);
    assert n == |found| && lines[..n] == lines && found[..n] == found;
    assert TrimBack(lines) == lines;
    assert Blocks(lines, found, n) == [];
    assert BlockOf(lines, found, 0, n) + [] == BlockOf(lines, found, 0, n);
  }

  lemma LinesAreComments()
    ensures forall i :: 0 <= i < |GeneratedFile()| ==> "//" <= GeneratedFile()[i]
    ensures !IsBlank(GeneratedFile()[13])
  {
    assert MARKED_LINE[..2] == "//" && "// a field"[..2] == "//";
    NonSpaceIsNotBlank("// a field", 0);
  }

  lemma FileIsMarked(fold: char -> char)
    ensures IsGenerated(GeneratedFile(), fold)
  {
    var phrase := MARKERS[0];
    assert forall k :: 0 <= k < |phrase| ==> MARKED_LINE[3 + k] == phrase[k];
    assert ReadsAt(MARKED_LINE, 3, MARKERS[0], fold);
    assert IsMarked(GeneratedFile()[0], fold);
  }

  lemma EmptyIsUnmarked(fold: char -> char)
    ensures !IsMarked("", fold)
  {
    assert forall m :: 0 <= m < |MARKERS| ==> MARKERS[m] != "";
  }

  lemma PushedDownUnmasks(rules: Rules, path: string)
    ensures IsCodeOnly(PushedDown(path)) && Unmasks(rules, PushedDown(path))
  {
    hide IsMarked, IsGenerated, Bodies, ModeAfter;
    var e := PushedDown(path);
    EmptyIsQuiet(HEADER_LINES, Go);
    NothingBefore();
    FileIsMarked(rules.fold);
    EmptyIsUnmarked(rules.fold);
    assert Lines(e, false) == GeneratedFile();
    var after := Lines(e, true);
    assert forall i :: 0 <= i < HEADER_LINES ==> after[i] == "";
    HeaderIsClean(after, rules.fold);
  }

  lemma NothingBefore()
    ensures Bodies([], Code, Go) == [] && ModeAfter([], Code, Go) == Code
  {
  }

  lemma HeaderIsClean(lines: seq<string>, fold: char -> char)
    requires !IsMarked("", fold) && |lines| >= HEADER_LINES && forall i :: 0 <= i < HEADER_LINES ==> lines[i] == ""
    ensures !IsGenerated(lines, fold)
  {
    hide IsMarked;
  }

  /** What the scan records of it once it is looked at: its one block is too long, from line 9 on. */
  lemma PushedDownIsTooLong(rules: Rules, path: string)
    ensures var found := Findings(OnlyLength(rules), Lines(PushedDown(path), true), Go);
            found != [] && found[0].0 == Message(9, LengthText(14))
  {
    hide Bodies, Blocks, Count, Message, LengthText, DensityRecorded, ModeAfter;
    var file, quiet := GeneratedFile(), EmptyLines(HEADER_LINES);
    var found := Bodies(file, Code, Go);
    LinesAreComments();
    SlashesAreComments(file);
    OneBlock(file, found);
    PushedDownUnmasks(rules, path);
    NothingBefore();
    BlocksAroundGap([], quiet, file, Go);
    assert FileBlocks([], Go) == [] by { NoFile(); }
    var b := CommentBlock(1, 14, 14, Texts(found), file);
    assert [b][1..] == [] && Shift([b], 8) == [ShiftBlock(b, 8)];
    assert FileBlocks(Lines(PushedDown(path), true), Go) == [ShiftBlock(b, 8)];
    OneFinding(rules, ShiftBlock(b, 8));
  }

  lemma NoFile()
    ensures FileBlocks([], Go) == []
  {
  }

  lemma OneFinding(rules: Rules, b: CommentBlock)
    requires b.startLine == 9 && |b.raw| == 14
    ensures AllRecorded(OnlyLength(rules), [b]) == [(Message(9, LengthText(14)), rules.hash(b.bodies))]
  {
    hide Message, LengthText;
    var checks := OnlyLength(rules).checks;
    var texts := [LengthText(14)];
    assert checks[1..] == [] && [b][1..] == [] && texts[1..] == [];
    assert TooLong(b.bodies, b.raw) == texts;
    assert Messages(checks[0], b) == [Message(9, LengthText(14))];
    WithOne(Message(9, LengthText(14)), rules.hash(b.bodies));
    assert Recorded([], rules.hash, b) == [] && AllRecorded(OnlyLength(rules), []) == [];
    assert Recorded(checks, rules.hash, b) == With([Message(9, LengthText(14))], rules.hash(b.bodies)) + [];
  }

  /**
   * Eight empty lines at the top of this file are an edit without comments, and bring up a violation that is not the
   * density: the baseline holds nothing, as the file was not looked at, and the scan after finds its comment too long.
   */
  lemma SkippedIsNotSilent(rules: Rules, path: string)
    ensures var edits := [PushedDown(path)];
            && IsCodeOnly(edits[0]) && Snapshot(Scan(OnlyLength(rules), edits, false)) == []
            && (path, Message(9, LengthText(14))) in NewOnes([], Scan(OnlyLength(rules), edits, true))
            && !(DENSITY <= Message(9, LengthText(14)))
  {
    hide Message, LengthText, IsCodeOnly, IsGenerated, Lookup, ViolationKey, Findings, NewOnes, IsBaselined,
      Lines, PushedDown;
    var only, edits := OnlyLength(rules), [PushedDown(path)];
    PushedDownUnmasks(only, path);
    PushedDownIsTooLong(rules, path);
    PathIs(path);
    var before, after := Scan(only, edits, false), Scan(only, edits, true);
    assert before[0].violations == [] && before[1..] == [];
    assert after[0].violations[0] == Message(9, LengthText(14));
    NothingHeld(ViolationKey(after[0], 0));
    NewOnesHas([], after, (path, Message(9, LengthText(14))), 0, 0);
    LengthIsNotDensity();
  }

  lemma PathIs(path: string)
    ensures PushedDown(path).path == path && PushedDown(path).lang == Go
  {
  }

  lemma LengthIsNotDensity()
    ensures !(DENSITY <= Message(9, LengthText(14)))
  {
    assert Message(9, LengthText(14))[0] == 'L' && DENSITY[0] == 'd';
  }
}
