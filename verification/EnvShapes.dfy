/** What a line must look like for the env files' operations to take it for a key's, told by its characters. */
module EnvShapes {
  import opened Options
  import opened Text
  import opened EnvLines
  import opened EnvSetter
  import opened EnvWriter

  // ----- the lines of a key -----

  /** Spaces, hashes, spaces, the key, spaces, '=' and anything. */
  predicate IsWritten(line: string, before: string, hashes: string, gap: string, key: string, after: string,
      rest: string)
  {
    && AllSpace(before) && AllChar(hashes, '#') && AllSpace(gap) && AllSpace(after)
    && line == before + hashes + gap + key + after + "=" + rest
  }

  /** The line assigns the key, active or commented out. */
  ghost predicate Names(line: string, key: string) {
    exists before: string, hashes: string, gap: string, after: string, rest: string ::
      IsWritten(line, before, hashes, gap, key, after, rest)
  }

  lemma KeyLineIsWritten(line: string, key: string)
    requires IsKeyLine(line, key)
    ensures Names(line, key)
  {
    hide Strip, LStripChar;
    var k := Find(line, '=');
    var left, rest := line[..k], line[k + 1..];
    var before, hashes, gap, after := MarksSplit(left, '#');
    assert line == left + "=" + rest;
    assert IsWritten(line, before, hashes, gap, key, after, rest);
  }

  lemma WrittenIsKeyLine(line: string, before: string, hashes: string, gap: string, key: string, after: string,
      rest: string)
    requires WellKeyed(key) && IsWritten(line, before, hashes, gap, key, after, rest)
    ensures IsKeyLine(line, key)
  {
    var left := before + hashes + gap + key + after;
    NoEquals(before, hashes, gap, key, after);
    FirstEquals(left, rest);
    assert line == left + "=" + rest;
    MarksStripped(before, hashes, gap, key, after, '#');
  }

  lemma FirstEquals(left: string, rest: string)
    requires forall i :: 0 <= i < |left| ==> left[i] != '='
    ensures var line := left + "=" + rest;
            Find(line, '=') == |left| && line[..|left|] == left && line[|left| + 1..] == rest
  {
    var line := left + "=" + rest;
    assert line[|left|] == '=' && forall i :: 0 <= i < |left| ==> line[i] == left[i];
    FindAt(line, '=', |left|);
  }

  lemma NoEquals(before: string, hashes: string, gap: string, key: string, after: string)
    requires AllSpace(before) && AllChar(hashes, '#') && AllSpace(gap) && AllSpace(after)
    requires forall i :: 0 <= i < |key| ==> key[i] != '='
    ensures var left := before + hashes + gap + key + after; forall i :: 0 <= i < |left| ==> left[i] != '='
  {
  }

  /** A line is the key's exactly when it has that shape. */
  lemma KeyLineExactly(line: string, key: string)
    requires WellKeyed(key)
    ensures IsKeyLine(line, key) <==> Names(line, key)
  {
    hide WellKeyed, IsKeyLine, IsWritten;
    if IsKeyLine(line, key) { KeyLineIsWritten(line, key); }
    if before: string, hashes: string, gap: string, after: string, rest: string :|
      IsWritten(line, before, hashes, gap, key, after, rest) {
      WrittenIsKeyLine(line, before, hashes, gap, key, after, rest);
    }
  }

  // ----- what parse reads off a line -----

  /** A value between two quotes of one kind loses them, and only such a value loses anything. */
  lemma UnquoteExactly(text: string)
    ensures Unquote("\"" + text + "\"") == text && Unquote("'" + text + "'") == text
    ensures Unquote(text) != text ==> text == "\"" + Unquote(text) + "\"" || text == "'" + Unquote(text) + "'"
  {
    var double, single := "\"" + text + "\"", "'" + text + "'";
    assert double[1..|double| - 1] == text && single[1..|single| - 1] == text;
  }

  /** Spaces, the key, spaces, '=' and anything: no hash in front. */
  ghost predicate Assigns(line: string, key: string, rest: string) {
    exists before: string, after: string ::
      AllSpace(before) && AllSpace(after) && line == before + key + after + "=" + rest
  }

  /** Parse reads a key off the lines of that shape and off no others, with the value as its quotes leave it. */
  lemma ActiveExactly(line: string, key: string, value: string)
    requires WellKeyed(key)
    ensures Active(line) == Some((key, value)) <==>
            exists rest: string :: Assigns(line, key, rest) && value == Unquote(Strip(rest))
  {
    if Active(line) == Some((key, value)) {
      var rest := ActiveIsAssigned(line, key, value);
    }
    if rest: string :| Assigns(line, key, rest) && value == Unquote(Strip(rest)) {
      var before: string, after: string :|
        AllSpace(before) && AllSpace(after) && line == before + key + after + "=" + rest;
      AssignedIsActive(line, before, key, after, rest);
    }
  }

  lemma ActiveIsAssigned(line: string, key: string, value: string) returns (rest: string)
    requires Active(line) == Some((key, value))
    ensures Assigns(line, key, rest) && value == Unquote(Strip(rest))
  {
    hide Strip, Unquote;
    var s := Strip(line);
    var k := Find(s, '=');
    var start, end := StripSplit(line);
    var before, after := StripSplit(s[..k]);
    rest := s[k + 1..] + end;
    StripOver("", s[k + 1..], end);
    assert "" + s[k + 1..] + end == rest;
    assert s == s[..k] + "=" + s[k + 1..];
    Parts(start, before, key, after, s[k + 1..], end);
    assert AllSpace(start + before) && AllSpace(after);
  }

  lemma Parts(a: string, b: string, key: string, c: string, d: string, e: string)
    ensures a + ((b + key + c) + "=" + d) + e == (a + b) + key + c + "=" + (d + e)
  {
  }

  lemma AssignedIsActive(line: string, before: string, key: string, after: string, rest: string)
    requires WellKeyed(key) && AllSpace(before) && AllSpace(after) && line == before + key + after + "=" + rest
    ensures Active(line) == Some((key, Unquote(Strip(rest))))
  {
    if key == "" {
      assert line == (before + after) + ("" + "=" + rest);
      BareIsActive(line, before + after, "", "", rest);
    } else {
      assert line == before + (key + after + "=" + rest);
      BareIsActive(line, before, key, after, rest);
    }
  }

  lemma BareIsActive(line: string, before: string, key: string, after: string, rest: string)
    requires WellKeyed(key) && AllSpace(before) && AllSpace(after) && (key == "" ==> after == "")
    requires line == before + (key + after + "=" + rest)
    ensures Active(line) == Some((key, Unquote(Strip(rest))))
  {
    hide RStrip, Unquote, IsSpace;
    var left, tail := key + after, RStrip(rest);
    var middle := left + "=";
    LStripOver(before, middle + rest);
    FirstIsTight(key, after, rest);
    RStripAfterMark(middle, rest) by { NotSpace(); }
    assert Strip(line) == left + "=" + tail;
    NoEquals("", "", "", key, after);
    assert "" + "" + "" + key + after == left;
    FirstEquals(left, tail);
    StripOver("", key, after);
    TrimIsStripped(key);
    assert "" + key + after == left;
    StripAfterRStrip(rest);
  }

  lemma NotSpace()
    ensures !IsSpace('=')
  {
  }

  lemma FirstIsTight(key: string, after: string, rest: string)
    requires WellKeyed(key) && (key == "" ==> after == "")
    ensures var text := key + after + "=" + rest;
            LStrip(text) == text && text[0] != '#'
  {
  }

  // ----- a file with one closed box -----

  ghost predicate Follows(line: string, start: string) { exists rest :: line == start + rest }

  /** Each marker is known by how its line starts, whatever follows. */
  lemma MarkersAreExact(line: string)
    ensures IsBegin(line) <==>
            Follows(line, "# >>> CUSTOM" + " — yours to edit;" + " preserved across" + " regeneration")
    ensures IsEnd(line) <==> Follows(line, "# <<< END CUSTOM")
    ensures IsAutoBegin(line) <==> Follows(line, "# >>> AUTO-GENERATED")
    ensures IsAutoEnd(line) <==> Follows(line, "# <<< END AUTO-GENERATED")
  {
    StartsExactly(line, CUSTOM_BEGIN);
    StartsExactly(line, CUSTOM_END);
    StartsExactly(line, AUTO_BEGIN_PREFIX);
    StartsExactly(line, AUTO_END);
  }

  lemma StartsExactly(line: string, start: string)
    ensures start <= line <==> Follows(line, start)
  {
    if start <= line { assert line == start + line[|start|..]; }
  }

  predicate NoBegin(lines: seq<string>) { forall i :: 0 <= i < |lines| ==> !IsBegin(lines[i]) }

  predicate NoEnd(lines: seq<string>) { forall i :: 0 <= i < |lines| ==> !IsEnd(lines[i]) }

  ghost predicate NoneNames(lines: seq<string>, key: string) {
    forall i :: 0 <= i < |lines| ==> !Names(lines[i], key)
  }

  lemma {:induction false} OutsideStays(lines: seq<string>, key: string, value: string, f: Flags)
    requires NoBegin(lines) && !f.inside
    ensures Set(lines, key, value, f) == lines && EnvSetter.After(lines, key, f) == f
  {
    if lines != [] { OutsideStays(lines[1..], key, value, f); }
  }

  lemma {:induction false} InsideStays(lines: seq<string>, key: string, value: string, f: Flags)
    requires WellKeyed(key) && NoEnd(lines) && NoneNames(lines, key) && f.inside
    ensures Set(lines, key, value, f) == lines && EnvSetter.After(lines, key, f) == f
  {
    hide WellKeyed, IsKeyLine, Names;
    if lines != [] {
      KeyLineExactly(lines[0], key);
      InsideStays(lines[1..], key, value, f);
    }
  }

  /** The file: lines, an opening marker, the box, a closing marker, lines. */
  function OneBox(above: seq<string>, begin: string, box: seq<string>, end: string, below: seq<string>): seq<string> {
    above + ([begin] + (box + ([end] + below)))
  }

  lemma SetOneBox(above: seq<string>, begin: string, box: seq<string>, end: string, below: seq<string>, key: string,
      value: string)
    requires NoBegin(above) && IsBegin(begin) && IsEnd(end) && NoBegin(below)
    requires !IsBegin(end) && EnvSetter.After(box, key, Flags(true, false)).inside
    ensures var inside := Flags(true, false);
            SetLines(OneBox(above, begin, box, end, below), key, value) ==
            OneBox(
              above, begin,
              Set(box, key, value, inside) +
                (if EnvSetter.After(box, key, inside).written then [] else [key + "=" + value]),
              end, below)
  {
    hide IsKeyLine, IsEnd, IsBegin, Set, EnvSetter.After, Emit, Next;
    var inside := Flags(true, false);
    var f := EnvSetter.After(box, key, inside);
    var tail := [end] + below;
    SetConcat(above, [begin] + (box + tail), key, value, START);
    OutsideStays(above, key, value, START);
    SetConcat([begin], box + tail, key, value, START);
    SetBegin(begin, key, value);
    SetConcat(box, tail, key, value, inside);
    SetEnd(end, below, key, value, f);
    var added := if f.written then [] else [key + "=" + value];
    assert Set(box, key, value, inside) + (added + tail) == (Set(box, key, value, inside) + added) + tail;
  }

  lemma SetBegin(begin: string, key: string, value: string)
    requires IsBegin(begin)
    ensures Set([begin], key, value, START) == [begin] && EnvSetter.After([begin], key, START) == Flags(true, false)
  {
    hide IsBegin, IsKeyLine;
    One(begin, key, value, START);
  }

  lemma SetEnd(end: string, below: seq<string>, key: string, value: string, f: Flags)
    requires IsEnd(end) && NoBegin(below) && f.inside
    ensures Set([end] + below, key, value, f) ==
            (if f.written then [] else [key + "=" + value]) + ([end] + below)
  {
    hide NoBegin, Set, EnvSetter.After, Emit, Next;
    var added := if f.written then [] else [key + "=" + value];
    SetConcat([end], below, key, value, f);
    SetEndLine(end, key, value, f);
    OutsideStays(below, key, value, Flags(false, true));
    assert (added + [end]) + below == added + ([end] + below);
  }

  lemma SetEndLine(end: string, key: string, value: string, f: Flags)
    requires IsEnd(end) && f.inside
    ensures Set([end], key, value, f) == (if f.written then [] else [key + "=" + value]) + [end]
    ensures EnvSetter.After([end], key, f) == Flags(false, true)
  {
    hide Set, EnvSetter.After, IsKeyLine;
    One(end, key, value, f);
  }

  /** In a box with one line of the key, active or commented out, that line is replaced and nothing else changes. */
  lemma OnlyLineIsReplaced(above: seq<string>, begin: string, before: seq<string>, line: string, after: seq<string>,
      end: string, below: seq<string>, key: string, value: string)
    requires WellKeyed(key) && NoBegin(above) && NoBegin(below) && IsBegin(begin) && IsEnd(end)
    requires NoEnd(before) && NoEnd(after) && !IsEnd(line)
    requires Names(line, key) && NoneNames(before, key) && NoneNames(after, key)
    ensures SetLines(OneBox(above, begin, before + ([line] + after), end, below), key, value) ==
            OneBox(above, begin, before + ([key + "=" + value] + after), end, below)
  {
    hide WellKeyed, IsKeyLine, Names, NoneNames, NoEnd, NoBegin, IsEnd, IsBegin;
    var inside, written := Flags(true, false), Flags(true, true);
    KeyLineExactly(line, key);
    SetConcat(before, [line] + after, key, value, inside);
    InsideStays(before, key, value, inside);
    SetConcat([line], after, key, value, inside);
    One(line, key, value, inside);
    InsideStays(after, key, value, written);
    EndIsNoBegin(end);
    var box := before + ([key + "=" + value] + after);
    SetOneBox(above, begin, before + ([line] + after), end, below, key, value);
    assert box + [] == box;
  }

  /** In a box without a line of the key, the value is added just above the closing marker. */
  lemma AbsentIsAdded(above: seq<string>, begin: string, box: seq<string>, end: string, below: seq<string>, key: string,
      value: string)
    requires WellKeyed(key) && NoBegin(above) && NoBegin(below) && IsBegin(begin) && IsEnd(end)
    requires NoEnd(box) && NoneNames(box, key)
    ensures SetLines(OneBox(above, begin, box, end, below), key, value) ==
            OneBox(above, begin, box + [key + "=" + value], end, below)
  {
    hide WellKeyed, IsKeyLine, Names, NoneNames, NoEnd, NoBegin, IsEnd, IsBegin;
    InsideStays(box, key, value, Flags(true, false));
    EndIsNoBegin(end);
    SetOneBox(above, begin, box, end, below, key, value);
  }

  lemma EndIsNoBegin(line: string)
    requires IsEnd(line)
    ensures !IsBegin(line)
  {
    assert CUSTOM_END[2] == '<' && CUSTOM_BEGIN[2] == '>';
    assert line[2] == CUSTOM_END[2];
  }

  /** A default is added exactly when no line of the block names its key, not even a commented one. */
  lemma SeedsExactly(custom: seq<string>, key: string, value: string)
    requires WellKeyed(key)
    ensures SeedOne(custom, key, value) == if NoneNames(custom, key) then custom + [key + "=" + value] else custom
  {
    hide WellKeyed, IsKeyLine, Names;
    forall i | 0 <= i < |custom| ensures IsKeyLine(custom[i], key) <==> Names(custom[i], key) {
      KeyLineExactly(custom[i], key);
    }
  }

  /** A commented-out line is replaced when its key is set, and keeps its key's default from being added again. */
  lemma CommentedIsReplaced(value: string)
    ensures SetLines([CUSTOM_BEGIN, "#A=1", CUSTOM_END], "A", value) == [CUSTOM_BEGIN, "A=" + value, CUSTOM_END]
    ensures SeedOne(["# A = 1"], "A", value) == ["# A = 1"]
  {
    hide IsEnd, IsBegin, SetLines, SeedOne, Names, AllSpace;
    CommentedNames();
    Markers();
    OnlyLineIsReplaced([], CUSTOM_BEGIN, [], "#A=1", [], CUSTOM_END, [], "A", value);
    assert OneBox([], CUSTOM_BEGIN, [] + (["#A=1"] + []), CUSTOM_END, []) == [CUSTOM_BEGIN, "#A=1", CUSTOM_END];
    assert "A" + "=" + value == "A=" + value;
    assert OneBox([], CUSTOM_BEGIN, [] + (["A=" + value] + []), CUSTOM_END, []) ==
        [CUSTOM_BEGIN, "A=" + value, CUSTOM_END];
    SeedsExactly(["# A = 1"], "A", value);
    assert Names(["# A = 1"][0], "A");
  }

  lemma Markers()
    ensures IsBegin(CUSTOM_BEGIN) && IsEnd(CUSTOM_END) && !IsEnd("#A=1")
  {
    assert CUSTOM_END[1] == ' ';
  }

  lemma CommentedNames()
    ensures WellKeyed("A") && Names("#A=1", "A") && Names("# A = 1", "A")
  {
    assert "#A=1" == "" + "#" + "" + "A" + "" + "=" + "1" && AllChar("#", '#');
    assert IsWritten("#A=1", "", "#", "", "A", "", "1");
    assert "# A = 1" == "" + "#" + " " + "A" + " " + "=" + " 1";
    assert IsWritten("# A = 1", "", "#", " ", "A", " ", " 1");
  }

  // ----- the owned lines -----

  predicate AllBlank(lines: seq<string>) { forall i :: 0 <= i < |lines| ==> AllSpace(lines[i]) }

  lemma BlankIsSpace(line: string)
    ensures IsBlank(line) <==> AllSpace(line)
  {
    hide Strip;
    StripIsExact(line, "");
    if AllSpace(line) { assert line == "" + "" + line; }
  }

  lemma BlankLines(lines: seq<string>)
    ensures AllBlank(lines) <==> forall i :: 0 <= i < |lines| ==> IsBlank(lines[i])
  {
    hide IsBlank, AllSpace;
    forall i | 0 <= i < |lines| ensures IsBlank(lines[i]) <==> AllSpace(lines[i]) { BlankIsSpace(lines[i]); }
  }

  lemma {:induction false} FrontIsBlank(lines: seq<string>)
    ensures |TrimFront(lines)| <= |lines| && TrimFront(lines) == lines[|lines| - |TrimFront(lines)|..]
    ensures forall i :: 0 <= i < |lines| - |TrimFront(lines)| ==> IsBlank(lines[i])
  {
    hide IsBlank;
    if lines != [] && IsBlank(lines[0]) {
      FrontIsBlank(lines[1..]);
      assert forall i :: 0 < i < |lines| ==> lines[i] == lines[1..][i - 1];
    }
  }

  lemma {:induction false} FrontSkips(front: seq<string>, rest: seq<string>)
    requires forall i :: 0 <= i < |front| ==> IsBlank(front[i])
    ensures TrimFront(front + rest) == TrimFront(rest)
  {
    hide IsBlank;
    if front == [] {
      assert front + rest == rest;
    } else {
      assert (front + rest)[1..] == front[1..] + rest;
      FrontSkips(front[1..], rest);
    }
  }

  lemma {:induction false} BackSkips(rest: seq<string>, back: seq<string>)
    requires forall i :: 0 <= i < |back| ==> IsBlank(back[i])
    ensures TrimBack(rest + back) == TrimBack(rest)
  {
    hide IsBlank;
    if back == [] {
      assert rest + back == rest;
    } else {
      assert (rest + back)[..|rest + back| - 1] == rest + back[..|back| - 1];
      BackSkips(rest, back[..|back| - 1]);
    }
  }

  lemma TrimmedSplits(lines: seq<string>) returns (front: seq<string>, back: seq<string>)
    ensures AllBlank(front) && AllBlank(back) && lines == front + Trimmed(lines) + back
  {
    hide IsBlank, AllSpace;
    var rest := TrimFront(lines);
    FrontIsBlank(lines);
    TrimBackIs(rest);
    front, back := lines[..|lines| - |rest|], rest[|Trimmed(lines)|..];
    BlankLines(front);
    BlankLines(back);
  }

  lemma TrimmedIs(front: seq<string>, kept: seq<string>, back: seq<string>)
    requires AllBlank(front) && AllBlank(back) && Tight(kept)
    ensures Trimmed(front + kept + back) == kept
  {
    hide IsBlank, AllSpace;
    assert front + kept + back == front + (kept + back);
    BlankLines(front);
    BlankLines(back);
    FrontSkips(front, kept + back);
    if kept == [] {
      FrontSkips(back, []);
      assert back + [] == back && kept + back == back && TrimFront([]) == [] && TrimBack([]) == [];
    } else {
      BackSkips(kept, back);
    }
  }

  /** All blank lines at both ends are cut, and nothing else. */
  lemma TrimmedExactly(lines: seq<string>, kept: seq<string>)
    ensures Trimmed(lines) == kept <==>
            (kept != [] ==> !AllSpace(kept[0]) && !AllSpace(kept[|kept| - 1])) &&
            exists front, back :: AllBlank(front) && AllBlank(back) && lines == front + kept + back
  {
    hide IsBlank, AllSpace, Trimmed, AllBlank;
    if kept != [] {
      BlankIsSpace(kept[0]);
      BlankIsSpace(kept[|kept| - 1]);
    }
    if Trimmed(lines) == kept {
      var front, back := TrimmedSplits(lines);
      TrimmedIsTight(lines);
    }
    if front, back :| AllBlank(front) && AllBlank(back) && lines == front + kept + back && Tight(kept) {
      TrimmedIs(front, kept, back);
    }
  }

  predicate NoAuto(lines: seq<string>) {
    forall i :: 0 <= i < |lines| ==> !IsAutoBegin(lines[i]) && !IsAutoEnd(lines[i])
  }

  predicate NoAutoEnd(lines: seq<string>) { forall i :: 0 <= i < |lines| ==> !IsAutoEnd(lines[i]) }

  lemma {:induction false} LegacyKeeps(lines: seq<string>, rest: seq<string>)
    requires NoAuto(lines)
    ensures LegacyLines(lines + rest, false) == lines + LegacyLines(rest, false)
  {
    hide IsAutoBegin, IsAutoEnd;
    if lines == [] {
      assert lines + rest == rest;
    } else {
      assert (lines + rest)[1..] == lines[1..] + rest;
      LegacyKeeps(lines[1..], rest);
    }
  }

  lemma {:induction false} LegacyDrops(box: seq<string>, end: string, rest: seq<string>)
    requires NoAutoEnd(box) && IsAutoEnd(end)
    ensures LegacyLines(box + ([end] + rest), true) == LegacyLines(rest, false)
  {
    var all := box + ([end] + rest);
    if box == [] {
      EndIsNoAutoBegin(end);
      assert all[1..] == rest;
    } else {
      assert all[1..] == box[1..] + ([end] + rest);
      LegacyDrops(box[1..], end, rest);
    }
  }

  lemma EndIsNoAutoBegin(line: string)
    requires IsAutoEnd(line)
    ensures !IsAutoBegin(line)
  {
    assert AUTO_END[2] == '<' && AUTO_BEGIN_PREFIX[2] == '>';
    assert line[2] == AUTO_END[2];
  }

  /** A file without CUSTOM markers: everything around its AUTO box is owned, and nothing in it. */
  lemma LegacyIsOutside(above: seq<string>, begin: string, box: seq<string>, end: string, below: seq<string>)
    requires NoBegin(OneBox(above, begin, box, end, below))
    requires NoAuto(above) && NoAuto(below) && IsAutoBegin(begin) && IsAutoEnd(end) && NoAutoEnd(box)
    ensures CustomBlock(OneBox(above, begin, box, end, below)) == Trimmed(above + below)
  {
    hide IsAutoBegin, IsAutoEnd, IsBegin, Trimmed;
    var rest := [begin] + (box + ([end] + below));
    LegacyKeeps(above, rest);
    assert rest[1..] == box + ([end] + below);
    LegacyDrops(box, end, below);
    LegacyKeeps(below, []);
    assert below + [] == below && LegacyLines([], false) == [];
  }

  /** With the markers: everything in the box is owned, and nothing around it. */
  lemma OwnedIsInside(above: seq<string>, begin: string, box: seq<string>, end: string, below: seq<string>)
    requires NoBegin(above) && NoBegin(below) && IsBegin(begin) && IsEnd(end) && NoBegin(box) && NoEnd(box)
    ensures CustomBlock(OneBox(above, begin, box, end, below)) == Trimmed(box)
  {
    hide IsBegin, IsEnd, Trimmed;
    var rest, tail := [begin] + (box + ([end] + below)), [end] + below;
    EndIsNoBegin(end);
    SkipOutside(above, rest);
    assert OneBox(above, begin, box, end, below)[|above|] == begin;
    assert rest[1..] == box + tail && tail[1..] == below;
    KeepInside(box, tail);
    SkipOutside(below, []);
    assert below + [] == below && CustomLines([], false) == [] && box + [] == box;
  }

  /** The file written: the header first, then a box with each generated pair, and the owned lines up to the end. */
  lemma FileIsExact(header: string, generated: Pairs, custom: seq<string>)
    requires CleanHeader(header) && CleanPairs(generated)
    ensures var lines := FileLines(header, generated, custom);
            && |lines| == 6 + |generated| + |custom| && lines[0] == "# " + header
            && lines[|lines| - |custom| - 1..] == custom + [CUSTOM_END]
            && |AutoBox(lines, false)| == |generated|
            && forall i :: 0 <= i < |generated| ==>
                 AutoBox(lines, false)[i] == generated[i].0 + "=" + generated[i].1
  {
    hide CleanPairs, CleanHeader, AutoBox;
    AutoBoxIsGenerated(header, generated, custom);
  }
}
