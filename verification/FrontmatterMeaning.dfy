/** What normalising keeps: lines, meaning, and itself. */
module FrontmatterMeaning {
  import opened Options
  import opened Text
  import opened Frontmatter
  import opened FrontmatterFold

  // ----- every line is accounted for -----

  function LinesOf(item: Item): seq<string> {
    if item.Kept? then [item.line] else [item.header] + item.taken
  }

  function Flatten(items: seq<Item>): seq<string> {
    if items == [] then [] else LinesOf(items[0]) + Flatten(items[1..])
  }

  /** A scalar is named by its header and takes in lines that go on with it. */
  predicate IsFaithful(item: Item, word: char -> bool) {
    match item
    case Kept(line) => HeaderKey(line, word).None?
    case Scalar(key, header, taken) =>
      HeaderKey(header, word) == Some(key) && forall i :: 0 <= i < |taken| ==> GoesOn(taken[i])
  }

  predicate AreFaithful(items: seq<Item>, word: char -> bool) {
    forall i :: 0 <= i < |items| ==> IsFaithful(items[i], word)
  }

  predicate AreWritten(items: seq<Item>, out: seq<string>) {
    |out| == |items| && forall i :: 0 <= i < |items| && items[i].Kept? ==> out[i] == items[i].line
  }

  lemma FaithfulPush(item: Item, items: seq<Item>, word: char -> bool)
    requires IsFaithful(item, word) && AreFaithful(items, word) && AreWritten(items, RenderAll(items))
    ensures AreFaithful([item] + items, word) && AreWritten([item] + items, RenderAll([item] + items))
    ensures Flatten([item] + items) == LinesOf(item) + Flatten(items)
  {
    hide IsFaithful, Quoted;
  }

  /** The items are the lines, in order, and a line on its own is written as it is. */
  lemma {:induction false} LinesAreKept(lines: seq<string>, word: char -> bool)
    ensures var items := Items(lines, word);
            Flatten(items) == lines && AreFaithful(items, word) && AreWritten(items, RenderAll(items))
    decreases |lines|
  {
    hide HeaderKey, GoesOn, AreFaithful, AreWritten, RenderAll, Flatten;
    if lines == [] {
      NoItemsKept(word);
    } else if HeaderKey(lines[0], word).None? {
      LinesAreKept(lines[1..], word);
      FaithfulPush(Kept(lines[0]), Items(lines[1..], word), word);
    } else {
      var n := BlockLength(lines[1..]);
      LinesAreKept(lines[1 + n..], word);
      FaithfulPush(Scalar(HeaderKey(lines[0], word).value, lines[0], lines[1..1 + n]), Items(lines[1 + n..], word),
        word);
      assert lines == [lines[0]] + lines[1..1 + n] + lines[1 + n..];
    }
  }

  lemma NoItemsKept(word: char -> bool)
    ensures AreFaithful([], word) && AreWritten([], RenderAll([])) && Flatten([]) == []
  {
  }

  // ----- double-quoted scalars -----

  /** Section 7.3.1 of YAML 1.2.2, for the two escapes the normaliser writes. */
  function Unescape(s: string): Option<string> {
    if s == "" then Some("")
    else if s[0] == '"' then None
    else if s[0] == '\\' then
      if |s| < 2 || (s[1] != '\\' && s[1] != '"') then None
      else
        var rest := Unescape(s[2..]);
        if rest.None? then None else Some([s[1]] + rest.value)
    else
      var rest := Unescape(s[1..]);
      if rest.None? then None else Some([s[0]] + rest.value)
  }

  lemma {:induction false} EscapeStep(s: string)
    requires s != ""
    ensures Escape(s) == (if s[0] == '\\' then "\\\\" else if s[0] == '"' then "\\\"" else [s[0]]) + Escape(s[1..])
  {
    var head := if s[0] == '\\' then "\\\\" else [s[0]];
    ReplaceConcat(head, Replace(s[1..], '\\', "\\\\"), '"', "\\\"");
    assert s[..1] == [s[0]];
    ReplaceShort(head);
  }

  lemma {:induction false} ReplaceConcat(a: string, b: string, c: char, with: string)
    ensures Replace(a + b, c, with) == Replace(a, c, with) + Replace(b, c, with)
  {
    if a == "" {
      assert a + b == b;
    } else {
      assert (a + b)[1..] == a[1..] + b && (a + b)[..1] == a[..1];
      ReplaceConcat(a[1..], b, c, with);
      ReplaceStep(a, c, with);
      ReplaceStep(a + b, c, with);
      hide Replace;
      var head := if a[0] == c then with else a[..1];
      assert Replace(a + b, c, with) == head + (Replace(a[1..], c, with) + Replace(b, c, with));
    }
  }

  lemma ReplaceStep(s: string, c: char, with: string)
    requires s != ""
    ensures Replace(s, c, with) == (if s[0] == c then with else s[..1]) + Replace(s[1..], c, with)
  {
  }

  lemma ReplaceShort(s: string)
    requires |s| == 1 || s == "\\\\"
    ensures Replace(s, '"', "\\\"") == if s[0] == '"' then "\\\"" else s
  {
    if |s| == 1 {
      assert s[1..] == "" && s[..1] == s;
    } else {
      assert s[..1] == "\\" && s[1..] == "\\" && s[1..][1..] == "" && s[1..][..1] == "\\";
    }
  }

  /** A value reads back as it was before it was escaped. */
  lemma {:induction false} EscapeReads(s: string)
    ensures Unescape(Escape(s)) == Some(s)
  {
    hide Escape;
    if s == "" {
      EscapeNothing();
    } else {
      EscapeStep(s);
      EscapeReads(s[1..]);
      var head := if s[0] == '\\' then "\\\\" else if s[0] == '"' then "\\\"" else [s[0]];
      assert (head + Escape(s[1..]))[|head|..] == Escape(s[1..]);
      assert [s[0]] + s[1..] == s;
    }
  }

  lemma EscapeNothing()
    ensures Escape("") == ""
  {
  }

  /** A line that assigns a double-quoted scalar, read as key and value. */
  function QuotedField(line: string, word: char -> bool): Option<(string, string)> {
    var k := KeyLength(line, word);
    if k == 0 || |line| < k + 4 || line[k + 1] != ' ' || line[k + 2] != '"' || line[|line| - 1] != '"' then None
    else
      var value := Unescape(line[k + 3..|line| - 1]);
      if value.None? then None else Some((line[..k], value.value))
  }

  /** A key as a header line spells it. */
  predicate IsKey(key: string, word: char -> bool) {
    key != "" && IsLetter(key[0]) && forall i :: 1 <= i < |key| ==> word(key[i]) || key[i] == '-'
  }

  lemma {:induction false} WordRunIs(s: string, rest: string, word: char -> bool)
    requires (forall i :: 0 <= i < |s| ==> word(s[i]) || s[i] == '-') && rest != "" && !word(rest[0]) && rest[0] != '-'
    ensures WordRun(s + rest, word) == |s|
  {
    if s == "" {
      assert s + rest == rest;
    } else {
      assert (s + rest)[1..] == s[1..] + rest;
      WordRunIs(s[1..], rest, word);
    }
  }

  lemma {:induction false} WordRunHolds(s: string, word: char -> bool)
    ensures forall i :: 0 <= i < WordRun(s, word) ==> word(s[i]) || s[i] == '-'
  {
    if s != "" && (word(s[0]) || s[0] == '-') {
      WordRunHolds(s[1..], word);
      forall i | 0 <= i < WordRun(s, word) ensures word(s[i]) || s[i] == '-' {
        if i > 0 { assert s[i] == s[1..][i - 1]; }
      }
    }
  }

  lemma HeaderHasKey(line: string, word: char -> bool)
    requires HeaderKey(line, word).Some?
    ensures IsKey(HeaderKey(line, word).value, word) && HeaderKey(line, word).value <= line
  {
    WordRunHolds(line[1..], word);
    var k := KeyLength(line, word);
    assert forall i :: 1 <= i < k ==> line[i] == line[1..][i - 1];
  }

  lemma KeyLengthIs(key: string, rest: string, word: char -> bool)
    requires IsKey(key, word) && !word(':') && rest != "" && rest[0] == ':'
    ensures KeyLength(key + rest, word) == |key|
  {
    assert (key + rest)[1..] == key[1..] + rest;
    WordRunIs(key[1..], rest, word);
  }

  /** A folded line reads back as its key and its value, and opens no block scalar. */
  lemma QuotedReads(key: string, value: string, word: char -> bool)
    requires IsKey(key, word) && !word(':')
    ensures QuotedField(Quoted(key, value), word) == Some((key, value))
    ensures HeaderKey(Quoted(key, value), word) == None
    ensures Quoted(key, value) != "---"
  {
    hide Escape, IsKey, KeyLength, Unescape, HeaderKey;
    var e := Escape(value);
    var line := Quoted(key, value);
    assert line == key + (": \"" + e + "\"");
    KeyLengthIs(key, ": \"" + e + "\"", word);
    EscapeReads(value);
    var k := |key|;
    assert line[..k] == key && line[k] == ':' && line[k + 1] == ' ' && line[k + 2] == '"' && line[|line| - 1] == '"';
    assert line[k + 3..|line| - 1] == e;
    assert line[k + 1..] == " " + ("\"" + e + "\"");
    KeyIsSome(key, word);
    QuoteOpensNothing(line, "\"" + e + "\"", word);
  }

  lemma QuoteOpensNothing(line: string, rest: string, word: char -> bool)
    requires var k := KeyLength(line, word); k > 0 && line[k + 1..] == " " + rest
    requires rest != "" && rest[0] == '"'
    ensures HeaderKey(line, word) == None
  {
    hide KeyLength;
    assert (" " + rest)[1..] == rest;
    assert SkipTabs(rest) == rest;
    assert SkipTabs(line[KeyLength(line, word) + 1..]) == rest;
  }

  lemma KeyIsSome(key: string, word: char -> bool)
    requires IsKey(key, word)
    ensures key != ""
  {
  }

  // ----- the value is already trimmed -----

  lemma {:induction false} NonEmptyTrims(parts: seq<string>)
    requires forall i :: 0 <= i < |parts| ==> Trim(parts[i])
    ensures forall i :: 0 <= i < |NonEmpty(parts)| ==> Trim(NonEmpty(parts)[i]) && NonEmpty(parts)[i] != ""
  {
    if parts != [] { NonEmptyTrims(parts[1..]); }
  }

  lemma {:induction false} JoinTrims(parts: seq<string>)
    requires forall i :: 0 <= i < |parts| ==> Trim(parts[i]) && parts[i] != ""
    ensures Trim(Join(parts, " ")) && (parts != [] ==> Join(parts, " ") != "" && Join(parts, " ")[0] == parts[0][0])
  {
    if |parts| > 1 {
      JoinTrims(parts[1..]);
      var s := Join(parts, " ");
      var rest := Join(parts[1..], " ");
      assert s[0] == parts[0][0] && s[|s| - 1] == rest[|rest| - 1];
    }
  }

  lemma ContentIsTrimmed(taken: seq<string>)
    ensures Strip(Content(taken)) == Content(taken)
  {
    hide Strip;
    forall i | 0 <= i < |taken| ensures Trim(Stripped(taken)[i]) { StripTrims(taken[i]); }
    NonEmptyTrims(Stripped(taken));
    JoinTrims(NonEmpty(Stripped(taken)));
    TrimIsStripped(Content(taken));
  }

  // ----- meaning -----

  /** What a reader of the frontmatter sees of an item: a field with its text, or a line it does not interpret. */
  datatype Entry = Field(key: string, value: string) | Raw(line: string)

  function Meaning(items: seq<Item>, word: char -> bool): (m: seq<Entry>)
    ensures |m| == |items|
  {
    if items == [] then []
    else
      [match items[0]
       case Scalar(key, _, taken) => Field(key, Content(taken))
       case Kept(line) =>
         var f := QuotedField(line, word);
         if f.Some? then Field(f.value.0, f.value.1) else Raw(line)]
      + Meaning(items[1..], word)
  }

  /** No line of the output opens a block scalar or is a delimiter; a reader sees the same entries. */
  lemma {:induction false} FoldedLines(lines: seq<string>, word: char -> bool)
    requires !word(':') && AreLines(lines) && NoDashes(lines)
    ensures var items := Items(lines, word);
            var out := RenderAll(items);
            && AreLines(out) && NoDashes(out) && (lines != [] ==> out != [])
            && |Items(out, word)| == |out| && (forall i :: 0 <= i < |out| ==> Items(out, word)[i] == Kept(out[i]))
            && Meaning(Items(out, word), word) == Meaning(items, word)
    decreases |lines|
  {
    hide HeaderKey, GoesOn, Quoted, Content, QuotedField, IsLine, Strip, Trim, IsKey, BlockLength;
    if lines != [] {
      if HeaderKey(lines[0], word).None? {
        FoldedLines(lines[1..], word);
        var out := RenderAll(Items(lines[1..], word));
        assert ([lines[0]] + out)[1..] == out;
        assert RenderAll(Items(lines, word)) == [lines[0]] + out;
      } else {
        var n := BlockLength(lines[1..]);
        var key, taken := HeaderKey(lines[0], word).value, lines[1..1 + n];
        FoldedLines(lines[1 + n..], word);
        HeaderHasKey(lines[0], word);
        ContentIsTrimmed(taken);
        QuotedReads(key, Content(taken), word);
        QuotedIsLine(lines[0], key, taken);
        var out := RenderAll(Items(lines[1 + n..], word));
        assert ([Quoted(key, Content(taken))] + out)[1..] == out;
        assert RenderAll(Items(lines, word)) == [Quoted(key, Content(taken))] + out;
      }
    }
  }

  lemma {:induction false} StripIsLine(s: string)
    requires IsLine(s)
    ensures IsLine(Strip(s))
  {
    LStripIsLine(s);
    RStripEnds(LStrip(s));
  }

  lemma {:induction false} LStripIsLine(s: string)
    requires IsLine(s)
    ensures IsLine(LStrip(s))
  {
    if s != "" && IsSpace(s[0]) {
      assert IsLine(s[1..]);
      LStripIsLine(s[1..]);
    }
  }

  lemma {:induction false} JoinIsLine(parts: seq<string>)
    requires AreLines(parts)
    ensures IsLine(Join(NonEmpty(parts), " ")) && AreLines(NonEmpty(parts))
  {
    if parts != [] {
      assert AreLines(parts[1..]);
      JoinIsLine(parts[1..]);
      if NonEmpty(parts[1..]) == [] {
        assert NonEmpty(parts) == [] || NonEmpty(parts) == [parts[0]];
      } else if parts[0] != "" {
        assert NonEmpty(parts)[1..] == NonEmpty(parts[1..]);
      } else {
        assert NonEmpty(parts) == NonEmpty(parts[1..]);
      }
    }
  }

  lemma {:induction false} ReplaceIsLine(s: string, c: char, with: string)
    requires IsLine(s) && IsLine(with)
    ensures IsLine(Replace(s, c, with))
  {
    if s != "" {
      assert IsLine(s[1..]);
      ReplaceIsLine(s[1..], c, with);
    }
  }

  lemma QuotedIsLine(header: string, key: string, taken: seq<string>)
    requires IsLine(header) && key <= header && AreLines(taken)
    ensures IsLine(Quoted(key, Content(taken)))
  {
    hide Strip, Join, NonEmpty, Replace;
    forall i | 0 <= i < |taken| ensures IsLine(Stripped(taken)[i]) { StripIsLine(taken[i]); }
    JoinIsLine(Stripped(taken));
    ReplaceIsLine(Content(taken), '\\', "\\\\");
    ReplaceIsLine(Replace(Content(taken), '\\', "\\\\"), '"', "\\\"");
    assert forall i :: 0 <= i < |key| ==> key[i] == header[i];
  }

  // ----- the frontmatter -----

  /** The lines a list of output lines ends up as once it ends in a line break. */
  function Settled(out: seq<string>): seq<string> {
    if |out| >= 2 && out[|out| - 1] == "" then out[..|out| - 1] else out
  }

  lemma EndedIsTerminated(out: seq<string>)
    requires out != [] && AreLines(out)
    ensures Ended(Join(out, "\n")) == Terminated(Settled(out)) && Settled(out) != [] && AreLines(Settled(out))
    ensures Split(Ended(Join(out, "\n"))) == if Settled(out) == out then out + [""] else out
  {
    hide Join, Terminated, Split, IsLine;
    JoinEnds(out);
    if Settled(out) == out {
      JoinClosed(out);
    } else {
      JoinClosed(Settled(out));
      assert Settled(out) + [""] == out;
    }
    SplitTerminated(Settled(out));
  }

  lemma {:induction false} AllKept(lines: seq<string>, word: char -> bool)
    requires forall i :: 0 <= i < |lines| ==> HeaderKey(lines[i], word).None?
    ensures RenderAll(Items(lines, word)) == lines && FoldedKeys(Items(lines, word)) == []
  {
    hide HeaderKey;
    if lines != [] { AllKept(lines[1..], word); }
  }

  lemma {:induction false} KeptOpenNothing(lines: seq<string>, word: char -> bool)
    requires |Items(lines, word)| == |lines| && forall i :: 0 <= i < |lines| ==> Items(lines, word)[i] == Kept(lines[i])
    ensures forall i :: 0 <= i < |lines| ==> HeaderKey(lines[i], word).None?
  {
    hide HeaderKey;
    LinesAreKept(lines, word);
    forall i | 0 <= i < |lines| ensures HeaderKey(lines[i], word).None? {
      assert IsFaithful(Items(lines, word)[i], word);
    }
  }

  lemma {:induction false} MeaningConcat(a: seq<string>, word: char -> bool)
    requires forall i :: 0 <= i < |a| ==> HeaderKey(a[i], word).None?
    ensures Meaning(Items(a + [""], word), word) == Meaning(Items(a, word), word) + [Raw("")]
  {
    hide HeaderKey, QuotedField;
    EmptyLine(word);
    if a == [] {
      assert a + [""] == [""] && [""][1..] == [];
    } else {
      assert (a + [""])[1..] == a[1..] + [""];
      MeaningConcat(a[1..], word);
    }
  }

  lemma EmptyLine(word: char -> bool)
    ensures HeaderKey("", word).None? && QuotedField("", word).None?
  {
  }

  /** Folding keeps what a reader sees: the same fields and lines, and one line break more if none ends the output. */
  lemma FoldKeepsMeaning(lines: seq<string>, word: char -> bool)
    requires !word(':') && AreLines(lines) && NoDashes(lines)
    ensures var fm := Terminated(lines);
            var before, after := Meaning(Items(Split(fm), word), word),
              Meaning(Items(Split(Fold(fm, word)), word), word);
            var out := RenderAll(Items(Split(fm), word));
            after == before + (if |out| >= 2 && out[|out| - 1] == "" then [] else [Raw("")])
  {
    hide HeaderKey, Meaning, Split, RenderAll, Items, IsLine;
    var all := Split(Terminated(lines));
    SplitTerminated(lines);
    assert NoDashes(all);
    FoldedLines(all, word);
    var out := RenderAll(Items(all, word));
    EndedIsTerminated(out);
    KeptOpenNothing(out, word);
    MeaningConcat(out, word);
  }

  /** Folding again folds nothing and changes nothing. */
  lemma FoldTwice(lines: seq<string>, word: char -> bool)
    requires !word(':') && AreLines(lines) && NoDashes(lines)
    ensures var once := Fold(Terminated(lines), word);
            Fold(once, word) == once && Folded(once, word) == []
    ensures exists kept :: AreLines(kept) && NoDashes(kept) && Fold(Terminated(lines), word) == Terminated(kept)
  {
    hide HeaderKey, Meaning, Split, RenderAll, Items, IsLine, Join, Terminated, Ended, FoldedKeys;
    var all := Split(Terminated(lines));
    SplitTerminated(lines);
    assert NoDashes(all);
    FoldedLines(all, word);
    var out := RenderAll(Items(all, word));
    var kept := Settled(out);
    EndedIsTerminated(out);
    assert Fold(Terminated(lines), word) == Terminated(kept) && NoDashes(kept);
    KeptOpenNothing(out, word);
    EmptyLine(word);
    var again := kept + [""];
    SplitTerminated(kept);
    AllKept(again, word);
    EndedIsTerminated(again);
    assert Settled(again) == kept;
  }

  // ----- the file -----

  function Normalized(text: string, word: char -> bool): string {
    var p := Parts(text);
    if p.0.None? then text else DELIMITER + Fold(p.0.value, word) + DELIMITER + p.1
  }

  function FoldedIn(text: string, word: char -> bool): seq<string> {
    var p := Parts(text);
    if p.0.None? then [] else Folded(p.0.value, word)
  }

  class MarkdownFile {
    var text: string

    constructor (text: string)
      ensures this.text == text
    {
      this.text := text;
    }
  }

  /** Source and destination may be one file. */
  method NormalizeFile(src: MarkdownFile, dst: MarkdownFile, word: char -> bool) returns (folded: seq<string>)
    modifies dst
    ensures dst.text == Normalized(old(src.text), word) && folded == FoldedIn(old(src.text), word)
  {
    var (fm, body) := Parts(src.text);
    if fm.None? {
      dst.text := src.text;
      return [];
    }
    var newFm;
    newFm, folded := FoldBlockScalars(fm.value, word);
    dst.text := DELIMITER + newFm + DELIMITER + body;
  }

  /** A normalised file splits into the folded frontmatter and the untouched body. */
  lemma NormalizedSplits(text: string, word: char -> bool)
    requires !word(':') && Parts(text).0.Some?
    ensures Parts(Normalized(text, word)) == (Some(Fold(Parts(text).0.value, word)), Parts(text).1)
  {
    hide Parts, Fold, Terminated;
    var (fm, body) := Parts(text);
    var lines := PartsWhole(text, fm.value, body);
    FoldTwice(lines, word);
    var kept :| AreLines(kept) && NoDashes(kept) && Fold(fm.value, word) == Terminated(kept);
    PartsOfWhole(kept, body);
  }

  /** Normalising is idempotent on whole files, and the second pass folds nothing. */
  lemma NormalizeIsIdempotent(text: string, word: char -> bool)
    requires !word(':')
    ensures Normalized(Normalized(text, word), word) == Normalized(text, word)
    ensures FoldedIn(Normalized(text, word), word) == []
  {
    hide Parts, Fold, Terminated, Folded;
    var (fm, body) := Parts(text);
    if fm.Some? {
      NormalizedSplits(text, word);
      var lines := PartsWhole(text, fm.value, body);
      FoldTwice(lines, word);
    }
  }
}
