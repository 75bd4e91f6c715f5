/** Folding top-level block scalars, and what it keeps. */
module FrontmatterFold {
  import opened Options
  import opened Text
  import opened Frontmatter

  // ----- the header of a block scalar -----

  predicate IsLetter(c: char) { ('A' <= c <= 'Z') || ('a' <= c <= 'z') || c == '_' }

  /** Characters after the first of a key; `word` are the word characters of the text's alphabet. */
  function WordRun(s: string, word: char -> bool): (k: nat)
    ensures k <= |s|
  {
    if s != "" && (word(s[0]) || s[0] == '-') then 1 + WordRun(s[1..], word) else 0
  }

  /** The length of the key a line starts with, when a colon follows it; else zero. */
  function KeyLength(line: string, word: char -> bool): (k: nat)
    ensures k > 0 ==> k < |line| && line[k] == ':'
  {
    if line == "" || !IsLetter(line[0]) then 0
    else
      var k := 1 + WordRun(line[1..], word);
      if k < |line| && line[k] == ':' then k else 0
  }

  predicate IsTab(c: char) { c == ' ' || c == '\t' }

  function SkipTabs(s: string): string {
    if s != "" && IsTab(s[0]) then SkipTabs(s[1..]) else s
  }

  /** The key of a line that opens a block scalar: a key, '>' or '|', an optional chomping sign, and nothing else. */
  function HeaderKey(line: string, word: char -> bool): Option<string> {
    var k := KeyLength(line, word);
    if k == 0 then None
    else
      var style := SkipTabs(line[k + 1..]);
      if style == "" || (style[0] != '>' && style[0] != '|') then None
      else
        var chomp := if |style| > 1 && (style[1] == '-' || style[1] == '+') then style[2..] else style[1..];
        if SkipTabs(chomp) == "" then Some(line[..k]) else None
  }

  /** A line that goes on with the scalar above it. */
  predicate GoesOn(line: string) { (line != "" && IsTab(line[0])) || IsBlank(line) }

  function BlockLength(lines: seq<string>): (n: nat)
    ensures n <= |lines| && (forall i :: 0 <= i < n ==> GoesOn(lines[i])) && (n < |lines| ==> !GoesOn(lines[n]))
  {
    if lines == [] || !GoesOn(lines[0]) then 0 else 1 + BlockLength(lines[1..])
  }

  // ----- items -----

  /** A line on its own, or a block scalar with the lines it takes in. */
  datatype Item = Kept(line: string) | Scalar(key: string, header: string, taken: seq<string>)

  function Items(lines: seq<string>, word: char -> bool): seq<Item>
    decreases |lines|
  {
    if lines == [] then []
    else if HeaderKey(lines[0], word).None? then [Kept(lines[0])] + Items(lines[1..], word)
    else
      var n := BlockLength(lines[1..]);
      [Scalar(HeaderKey(lines[0], word).value, lines[0], lines[1..1 + n])] + Items(lines[1 + n..], word)
  }

  function Stripped(lines: seq<string>): (s: seq<string>)
    ensures |s| == |lines|
  {
    seq(|lines|, i requires 0 <= i < |lines| => Strip(lines[i]))
  }

  /** What a block scalar says: its non-blank lines, trimmed, on one line. */
  function Content(taken: seq<string>): string { Join(NonEmpty(Stripped(taken)), " ") }

  /** str.replace of one character */
  function Replace(s: string, c: char, with: string): string {
    if s == "" then "" else (if s[0] == c then with else s[..1]) + Replace(s[1..], c, with)
  }

  function Escape(s: string): string { Replace(Replace(s, '\\', "\\\\"), '"', "\\\"") }

  function Quoted(key: string, value: string): string { key + ": \"" + Escape(value) + "\"" }

  function Render(item: Item): string {
    match item
    case Kept(line) => line
    case Scalar(key, _, taken) => Quoted(key, Strip(Content(taken)))
  }

  function RenderAll(items: seq<Item>): (out: seq<string>)
    ensures |out| == |items|
  {
    if items == [] then [] else [Render(items[0])] + RenderAll(items[1..])
  }

  function FoldedKeys(items: seq<Item>): seq<string> {
    if items == [] then [] else (if items[0].Scalar? then [items[0].key] else []) + FoldedKeys(items[1..])
  }

  function Ended(s: string): string {
    if s != "" && s[|s| - 1] == '\n' then s else s + "\n"
  }

  function Fold(fm: string, word: char -> bool): string {
    Ended(Join(RenderAll(Items(Split(fm), word)), "\n"))
  }

  function Folded(fm: string, word: char -> bool): seq<string> { FoldedKeys(Items(Split(fm), word)) }

  // ----- the loops -----

  method FoldBlockScalars(fm: string, word: char -> bool) returns (result: string, folded: seq<string>)
    ensures result == Fold(fm, word) && folded == Folded(fm, word)
  {
    hide HeaderKey, BlockLength, Strip, Escape, GoesOn, Join, NonEmpty, Stripped, FoldedTo;
    var lines := Split(fm);
    var out: seq<string> := [];
    folded := [];
    var i := 0;
    FoldStarts(lines, word);
    while i < |lines|
      invariant i <= |lines| && FoldedTo(lines, i, out, folded, word)
    {
      var header := HeaderKey(lines[i], word);
      if header.None? {
        FoldKeeps(lines, i, out, folded, word);
        out := out + [lines[i]];
        i := i + 1;
        continue;
      }
      var key := header.value;
      ghost var at := i;
      i := i + 1;
      var parts: seq<string> := [];
      StrippedPush([], "");
      assert lines[at + 1..i] == [];
      while i < |lines| && GoesOn(lines[i])
        invariant at < i <= |lines| && parts == Stripped(lines[at + 1..i])
        invariant forall k :: at < k < i ==> GoesOn(lines[k])
      {
        assert lines[at + 1..i + 1] == lines[at + 1..i] + [lines[i]];
        StrippedPush(lines[at + 1..i], lines[i]);
        parts := parts + [Strip(lines[i])];
        i := i + 1;
      }
      var value := Strip(Join(NonEmpty(parts), " "));
      FoldTakes(lines, at, i, out, folded, word);
      out := out + [key + ": \"" + Escape(value) + "\""];
      folded := folded + [key];
    }
    FoldEnds(lines, out, folded, word);
    result := Join(out, "\n");
    if result == "" || result[|result| - 1] != '\n' {
      result := result + "\n";
    }
  }

  /** What has been written off the first i lines. */
  ghost predicate FoldedTo(lines: seq<string>, i: nat, out: seq<string>, folded: seq<string>, word: char -> bool) {
    && i <= |lines|
    && out + RenderAll(Items(lines[i..], word)) == RenderAll(Items(lines, word))
    && folded + FoldedKeys(Items(lines[i..], word)) == FoldedKeys(Items(lines, word))
  }

  lemma FoldStarts(lines: seq<string>, word: char -> bool)
    ensures FoldedTo(lines, 0, [], [], word)
  {
    hide Items;
    assert lines[0..] == lines;
  }

  lemma FoldEnds(lines: seq<string>, out: seq<string>, folded: seq<string>, word: char -> bool)
    requires FoldedTo(lines, |lines|, out, folded, word)
    ensures out == RenderAll(Items(lines, word)) && folded == FoldedKeys(Items(lines, word))
  {
    assert lines[|lines|..] == [] && Items([], word) == [];
  }

  lemma FoldKeeps(lines: seq<string>, i: nat, out: seq<string>, folded: seq<string>, word: char -> bool)
    requires i < |lines| && FoldedTo(lines, i, out, folded, word) && HeaderKey(lines[i], word).None?
    ensures FoldedTo(lines, i + 1, out + [lines[i]], folded, word)
  {
    hide Items, RenderAll, FoldedKeys, HeaderKey;
    NextItem(lines, i, word);
    assert Render(Kept(lines[i])) == lines[i];
  }

  lemma FoldTakes(lines: seq<string>, i: nat, j: nat, out: seq<string>, folded: seq<string>, word: char -> bool)
    requires i < j <= |lines| && FoldedTo(lines, i, out, folded, word) && HeaderKey(lines[i], word).Some?
    requires (forall k :: i < k < j ==> GoesOn(lines[k])) && (j < |lines| ==> !GoesOn(lines[j]))
    ensures var key := HeaderKey(lines[i], word).value;
            var value := Strip(Join(NonEmpty(Stripped(lines[i + 1..j])), " "));
            FoldedTo(lines, j, out + [key + ": \"" + Escape(value) + "\""], folded + [key], word)
  {
    hide Items, RenderAll, FoldedKeys, HeaderKey, GoesOn, Strip, Join, NonEmpty, Stripped, Escape, BlockLength;
    NextItem(lines, i, word);
    var rest := lines[i + 1..];
    assert forall k :: 0 <= k < |rest| ==> rest[k] == lines[i + 1 + k];
    BlockLengthIs(rest, j - i - 1);
    var key := HeaderKey(lines[i], word).value;
    assert Render(Scalar(key, lines[i], lines[i + 1..j])) ==
        key + ": \"" + Escape(Strip(Join(NonEmpty(Stripped(lines[i + 1..j])), " "))) + "\"";
  }

  lemma StrippedPush(lines: seq<string>, line: string)
    ensures Stripped([]) == [] && Stripped(lines + [line]) == Stripped(lines) + [Strip(line)]
  {
    hide Strip;
  }

  lemma {:induction false} BlockLengthIs(lines: seq<string>, n: nat)
    requires n <= |lines| && (forall i :: 0 <= i < n ==> GoesOn(lines[i])) && (n < |lines| ==> !GoesOn(lines[n]))
    ensures BlockLength(lines) == n
  {
    if n > 0 { BlockLengthIs(lines[1..], n - 1); }
  }

  /** The item at line i, and what it adds. */
  lemma NextItem(lines: seq<string>, i: nat, word: char -> bool)
    requires i < |lines|
    ensures var key := HeaderKey(lines[i], word);
            var n := if key.None? then 0 else BlockLength(lines[i + 1..]);
            var item := if key.None? then Kept(lines[i]) else Scalar(key.value, lines[i], lines[i + 1..i + 1 + n]);
            var later := Items(lines[i + 1 + n..], word);
            && Items(lines[i..], word) == [item] + later
            && RenderAll(Items(lines[i..], word)) == [Render(item)] + RenderAll(later)
            && FoldedKeys(Items(lines[i..], word)) == (if key.None? then [] else [key.value]) + FoldedKeys(later)
  {
    hide HeaderKey, BlockLength;
    var rest := lines[i..];
    assert rest[1..] == lines[i + 1..];
    if HeaderKey(lines[i], word).Some? {
      var n := BlockLength(lines[i + 1..]);
      assert rest[1..1 + n] == lines[i + 1..i + 1 + n] && rest[1 + n..] == lines[i + 1 + n..];
    }
  }
}
