/** Which lines open a block scalar, which go on with it and what it says, told by their characters. */
module FrontmatterShapes {
  import opened Options
  import opened Text
  import opened Frontmatter
  import opened FrontmatterFold
  import opened FrontmatterMeaning

  // ----- header lines -----

  predicate AllTabs(s: string) { forall i :: 0 <= i < |s| ==> s[i] == ' ' || s[i] == '\t' }

  /** A key at the start of the line, a colon, tabs, a style, perhaps a chomping sign, tabs, and nothing else. */
  predicate IsWritten(line: string, key: string, gap: string, style: char, chomp: string, rest: string) {
    && AllTabs(gap) && AllTabs(rest)
    && (style == '>' || style == '|') && (chomp == "" || chomp == "-" || chomp == "+")
    && line == key + ":" + gap + [style] + chomp + rest
  }

  /** A letter or an underscore, then word characters and hyphens. */
  predicate IsName(key: string, word: char -> bool) {
    && key != "" && ('A' <= key[0] <= 'Z' || 'a' <= key[0] <= 'z' || key[0] == '_')
    && forall i :: 1 <= i < |key| ==> word(key[i]) || key[i] == '-'
  }

  ghost predicate IsHeader(line: string, key: string, word: char -> bool) {
    && IsName(key, word)
    && exists gap: string, style: char, chomp: string, rest: string :: IsWritten(line, key, gap, style, chomp, rest)
  }

  lemma {:induction false} TabsSplit(s: string)
    ensures |SkipTabs(s)| <= |s| && s[|s| - |SkipTabs(s)|..] == SkipTabs(s) && AllTabs(s[..|s| - |SkipTabs(s)|])
    ensures SkipTabs(s) == "" || !IsTab(SkipTabs(s)[0])
  {
    if s != "" && IsTab(s[0]) {
      TabsSplit(s[1..]);
      var n := |s| - |SkipTabs(s)|;
      assert s[..n] == [s[0]] + s[1..][..n - 1];
    }
  }

  lemma {:induction false} TabsOver(tabs: string, s: string)
    requires AllTabs(tabs) && (s == "" || !IsTab(s[0]))
    ensures SkipTabs(tabs + s) == s
  {
    if tabs == "" {
      assert tabs + s == s;
    } else {
      assert (tabs + s)[1..] == tabs[1..] + s;
      TabsOver(tabs[1..], s);
    }
  }

  predicate IsStyle(text: string, style: char, chomp: string, rest: string) {
    && AllTabs(rest) && (style == '>' || style == '|') && (chomp == "" || chomp == "-" || chomp == "+")
    && text == [style] + chomp + rest
  }

  lemma StyleSplits(text: string) returns (chomp: string, rest: string)
    requires text != "" && (text[0] == '>' || text[0] == '|')
    requires SkipTabs(if |text| > 1 && (text[1] == '-' || text[1] == '+') then text[2..] else text[1..]) == ""
    ensures IsStyle(text, text[0], chomp, rest)
  {
    hide SkipTabs;
    if |text| > 1 && (text[1] == '-' || text[1] == '+') {
      chomp, rest := text[1..2], text[2..];
      assert chomp == [text[1]] && text == [text[0]] + chomp + rest;
      OnlyTabs(rest);
    } else {
      chomp, rest := "", text[1..];
      assert text == [text[0]] + chomp + rest;
      OnlyTabs(rest);
    }
  }

  lemma OnlyTabs(s: string)
    requires SkipTabs(s) == ""
    ensures AllTabs(s)
  {
    TabsSplit(s);
    assert s[..|s|] == s;
  }

  lemma HeaderIsWritten(line: string, word: char -> bool)
    requires HeaderKey(line, word).Some?
    ensures IsHeader(line, HeaderKey(line, word).value, word)
  {
    hide SkipTabs, IsKey, IsName, KeyLength, AllTabs;
    HeaderHasKey(line, word);
    NameIsKey(HeaderKey(line, word).value, word);
    var k := KeyLength(line, word);
    var key, after := line[..k], line[k + 1..];
    TabsSplit(after);
    var text := SkipTabs(after);
    var gap := after[..|after| - |text|];
    var chomp, rest := StyleSplits(text);
    assert line == key + ":" + after && after == gap + text;
    HeaderParts(key, gap, [text[0]], chomp, rest);
    assert IsWritten(line, key, gap, text[0], chomp, rest);
  }

  lemma NameIsKey(key: string, word: char -> bool)
    ensures IsName(key, word) <==> IsKey(key, word)
  {
  }

  lemma HeaderParts(key: string, gap: string, style: string, chomp: string, rest: string)
    ensures key + ":" + (gap + (style + chomp + rest)) == key + ":" + gap + style + chomp + rest
  {
  }

  lemma WrittenIsHeader(line: string, key: string, gap: string, style: char, chomp: string, rest: string,
      word: char -> bool)
    requires IsKey(key, word) && !word(':') && IsWritten(line, key, gap, style, chomp, rest)
    ensures HeaderKey(line, word) == Some(key)
  {
    hide IsKey, KeyLength, SkipTabs;
    var tail := [style] + chomp + rest;
    assert line == key + (":" + gap + tail);
    KeyLengthIs(key, ":" + gap + tail, word);
    KeyIsSome(key, word);
    assert line[|key| + 1..] == gap + tail && line[..|key|] == key;
    TabsOver(gap, tail);
    TabsOver(rest, "");
    assert rest + "" == rest;
    if chomp == "" { assert tail[1..] == rest; } else { assert tail[2..] == rest; }
  }

  /** A line opens a block scalar exactly when it has that shape, folded or literal, with or without a sign. */
  lemma HeaderExactly(line: string, key: string, word: char -> bool)
    requires !word(':')
    ensures HeaderKey(line, word) == Some(key) <==> IsHeader(line, key, word)
  {
    hide HeaderKey, IsWritten;
    if HeaderKey(line, word) == Some(key) { HeaderIsWritten(line, word); }
    if IsHeader(line, key, word) {
      var gap: string, style: char, chomp: string, rest: string :| IsWritten(line, key, gap, style, chomp, rest);
      WrittenIsHeader(line, key, gap, style, chomp, rest, word);
    }
  }

  /** No line of the folded frontmatter has it, of any key. */
  lemma NoHeaderIsLeft(lines: seq<string>, word: char -> bool, i: nat, key: string)
    requires !word(':') && AreLines(lines) && NoDashes(lines) && i < |RenderAll(Items(lines, word))|
    ensures !IsHeader(RenderAll(Items(lines, word))[i], key, word)
  {
    hide HeaderKey, IsHeader, Items, RenderAll;
    var out := RenderAll(Items(lines, word));
    FoldedLines(lines, word);
    KeptOpenNothing(out, word);
    HeaderExactly(out[i], key, word);
  }

  // ----- the lines a scalar takes in -----

  /** Indented lines and blank lines go on with the scalar. */
  lemma GoesOnExactly(line: string)
    ensures GoesOn(line) <==> " " <= line || "\t" <= line || AllSpace(line)
  {
    hide Strip;
    StripIsExact(line, "");
    if AllSpace(line) { assert line == "" + "" + line; }
  }

  /** A scalar leaves no line behind that goes on with it. */
  predicate AreMaximal(items: seq<Item>) {
    forall i :: 0 < i < |items| && items[i - 1].Scalar? ==> !GoesOn(LinesOf(items[i])[0])
  }

  lemma FirstLine(items: seq<Item>)
    requires items != []
    ensures Flatten(items) != [] && Flatten(items)[0] == LinesOf(items[0])[0]
  {
  }

  lemma MaximalPush(item: Item, items: seq<Item>)
    requires AreMaximal(items)
    requires item.Scalar? && items != [] ==> !GoesOn(Flatten(items)[0])
    ensures AreMaximal([item] + items)
  {
    hide GoesOn;
    if items != [] { FirstLine(items); }
  }

  lemma {:induction false} ItemsAreMaximal(lines: seq<string>, word: char -> bool)
    ensures AreMaximal(Items(lines, word))
    decreases |lines|
  {
    hide HeaderKey, GoesOn, AreMaximal, LinesOf;
    if lines == [] {
      NoneIsMaximal();
    } else if HeaderKey(lines[0], word).None? {
      ItemsAreMaximal(lines[1..], word);
      MaximalPush(Kept(lines[0]), Items(lines[1..], word));
    } else {
      var n := BlockLength(lines[1..]);
      var rest := lines[1 + n..];
      ItemsAreMaximal(rest, word);
      LinesAreKept(rest, word);
      MaximalPush(Scalar(HeaderKey(lines[0], word).value, lines[0], lines[1..1 + n]), Items(rest, word));
    }
  }

  lemma NoneIsMaximal()
    ensures AreMaximal([])
  {
  }

  lemma RestIsRead(items: seq<Item>, word: char -> bool)
    requires items != [] && AreFaithful(items, word) && AreMaximal(items)
    ensures AreFaithful(items[1..], word) && AreMaximal(items[1..]) && IsFaithful(items[0], word)
    ensures Flatten(items) == LinesOf(items[0]) + Flatten(items[1..])
    ensures items[0].Scalar? && Flatten(items[1..]) != [] ==> !GoesOn(Flatten(items[1..])[0])
  {
    hide GoesOn, IsFaithful;
    var rest := items[1..];
    assert forall i :: 0 <= i < |rest| ==> rest[i] == items[i + 1];
    if rest != [] { FirstLine(rest); }
  }

  lemma {:induction false} ReadingIsItems(items: seq<Item>, word: char -> bool)
    requires AreFaithful(items, word) && AreMaximal(items)
    ensures Items(Flatten(items), word) == items
    decreases |items|
  {
    hide HeaderKey, GoesOn, AreFaithful, AreMaximal, Items, Flatten, IsFaithful;
    if items == [] {
      NothingReads(word);
    } else {
      RestIsRead(items, word);
      ReadingIsItems(items[1..], word);
      FirstItem(items[0], Flatten(items[1..]), word);
      assert items == [items[0]] + items[1..];
    }
  }

  lemma NothingReads(word: char -> bool)
    ensures Items([], word) == [] && Flatten([]) == []
  {
  }

  /** The item a list of lines begins with. */
  lemma FirstItem(item: Item, rest: seq<string>, word: char -> bool)
    requires IsFaithful(item, word) && (item.Scalar? && rest != [] ==> !GoesOn(rest[0]))
    ensures Items(LinesOf(item) + rest, word) == [item] + Items(rest, word)
  {
    hide Items, HeaderKey, GoesOn;
    match item
    case Kept(line) => KeptFirst(line, rest, word);
    case Scalar(key, header, taken) => ScalarFirst(key, header, taken, rest, word);
  }

  lemma KeptFirst(line: string, rest: seq<string>, word: char -> bool)
    requires HeaderKey(line, word).None?
    ensures Items([line] + rest, word) == [Kept(line)] + Items(rest, word)
  {
    hide HeaderKey;
    assert ([line] + rest)[1..] == rest;
  }

  lemma ScalarFirst(key: string, header: string, taken: seq<string>, rest: seq<string>, word: char -> bool)
    requires HeaderKey(header, word) == Some(key) && forall i :: 0 <= i < |taken| ==> GoesOn(taken[i])
    requires rest != [] ==> !GoesOn(rest[0])
    ensures Items([header] + taken + rest, word) == [Scalar(key, header, taken)] + Items(rest, word)
  {
    hide GoesOn, Items, HeaderKey, BlockLength;
    var lines := [header] + taken + rest;
    var n := |taken|;
    assert lines[1..] == taken + rest && lines[1..1 + n] == taken && lines[1 + n..] == rest;
    BlockLengthIs(lines[1..], n);
    ScalarStep(lines, key, word);
  }

  lemma ScalarStep(lines: seq<string>, key: string, word: char -> bool)
    requires lines != [] && HeaderKey(lines[0], word) == Some(key)
    ensures var n := BlockLength(lines[1..]);
            Items(lines, word) == [Scalar(key, lines[0], lines[1..1 + n])] + Items(lines[1 + n..], word)
  {
    hide HeaderKey, BlockLength;
  }

  /** The items are the one way to read the lines: lines on their own, and scalars with all that goes on with them. */
  lemma ItemsAreExact(lines: seq<string>, items: seq<Item>, word: char -> bool)
    ensures items == Items(lines, word) <==> Flatten(items) == lines && AreFaithful(items, word) && AreMaximal(items)
  {
    hide Items, Flatten, AreFaithful, AreMaximal, HeaderKey;
    LinesAreKept(lines, word);
    ItemsAreMaximal(lines, word);
    if Flatten(items) == lines && AreFaithful(items, word) && AreMaximal(items) { ReadingIsItems(items, word); }
  }

  function KeysOf(item: Item): seq<string> {
    match item
    case Kept(_) => []
    case Scalar(key, _, _) => [key]
  }

  lemma FoldedStep(items: seq<Item>)
    ensures FoldedKeys([]) == []
    ensures items != [] ==> FoldedKeys(items) == KeysOf(items[0]) + FoldedKeys(items[1..])
  {
  }

  /** The keys reported as folded are those of the scalars, one each, in order. */
  lemma {:induction false} FoldedKeysAreExact(items: seq<Item>, item: Item)
    ensures FoldedKeys(items + [item]) == FoldedKeys(items) + KeysOf(item)
  {
    hide FoldedKeys, KeysOf;
    var all := items + [item];
    FoldedStep(items);
    FoldedStep(all);
    if items == [] {
      assert all == [item] && all[1..] == [];
    } else {
      assert all[1..] == items[1..] + [item];
      FoldedKeysAreExact(items[1..], item);
    }
  }

  // ----- what a scalar says -----

  /** Each line that is not blank adds its text, trimmed, after one space. */
  lemma ContentPush(taken: seq<string>, line: string)
    ensures Content([]) == ""
    ensures var before, text := Content(taken), Strip(line);
            Content(taken + [line]) == if text == "" then before else if before == "" then text else before + " " + text
  {
    hide Strip;
    StrippedPush(taken, line);
    JoinNonEmptyPush(Stripped(taken), Strip(line));
  }
}
