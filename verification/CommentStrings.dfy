/**
 * A line of HCL, TypeScript, C# or Go as the language reads it: plain characters, strings and comments, each with its
 * delimiters written out. The comments the scanner finds are the comments of that reading, for every line.
 */
module CommentStrings {
  import opened Options
  import opened Text
  import opened CommentScanner

  datatype Segment = Plain(c: char) | Quoted(quote: char, body: string) | Note(inner: string)

  /** What a line ends in: nothing open, a comment to its end, or a comment or string left open. */
  datatype Ending =
    | Nothing
    | ToEnd(mark: string, text: string)
    | OpenNote(inner: string)
    | OpenString(quote: char, body: string)

  /** Double and single quotes everywhere, backticks in TypeScript and Go. */
  predicate Quotes(c: char, lang: Lang) {
    c == '\"' || c == '\'' || (c == '`' && lang == TypeScript) || (c == '`' && lang == Go)
  }

  /** No quote of its own, unless a backslash hides it; in backticks a backslash hides nothing. */
  predicate IsStringBody(body: string, quote: char) {
    if body == "" then true
    else if body[0] == '\\' && quote != '`' then |body| >= 2 && IsStringBody(body[2..], quote)
    else body[0] != quote && IsStringBody(body[1..], quote)
  }

  /** The same, up to the end of a line: the backslash may be its last character. */
  predicate IsOpenBody(body: string, quote: char) {
    if body == "" then true
    else if body[0] == '\\' && quote != '`' then |body| == 1 || IsOpenBody(body[2..], quote)
    else body[0] != quote && IsOpenBody(body[1..], quote)
  }

  predicate IsInner(inner: string) {
    forall k :: 0 <= k < |inner| - 1 ==> !(inner[k] == '*' && inner[k + 1] == '/')
  }

  function Render(segment: Segment): string {
    match segment
    case Plain(c) => [c]
    case Quoted(quote, body) => [quote] + body + [quote]
    case Note(inner) => "/*" + inner + "*/"
  }

  function EndText(end: Ending): string {
    match end
    case Nothing => ""
    case ToEnd(mark, text) => mark + text
    case OpenNote(inner) => "/*" + inner
    case OpenString(quote, body) => [quote] + body
  }

  function TextOf(segments: seq<Segment>, end: Ending): string {
    if segments == [] then EndText(end) else Render(segments[0]) + TextOf(segments[1..], end)
  }

  /** A segment followed by this text. */
  predicate IsSegment(segment: Segment, next: string, lang: Lang) {
    match segment
    case Plain(c) =>
      && !Quotes(c, lang) && !(c == '#' && lang == Hcl)
      && (c == '/' ==> next == "" || (next[0] != '/' && next[0] != '*'))
    case Quoted(quote, body) => Quotes(quote, lang) && IsStringBody(body, quote)
    case Note(inner) => IsInner(inner)
  }

  predicate IsEnding(end: Ending, lang: Lang) {
    match end
    case Nothing => true
    case ToEnd(mark, _) => mark == "//" || (mark == "#" && lang == Hcl)
    case OpenNote(inner) => IsInner(inner)
    case OpenString(quote, body) => Quotes(quote, lang) && IsOpenBody(body, quote)
  }

  predicate IsReading(segments: seq<Segment>, end: Ending, lang: Lang) {
    if segments == [] then IsEnding(end, lang)
    else IsSegment(segments[0], TextOf(segments[1..], end), lang) && IsReading(segments[1..], end, lang)
  }

  /** The comments of a reading, in order. */
  function Notes(segments: seq<Segment>, end: Ending): seq<string> {
    if segments == [] then
      match end
      case ToEnd(_, text) => [text]
      case OpenNote(inner) => [inner]
      case _ => []
    else (if segments[0].Note? then [segments[0].inner] else []) + Notes(segments[1..], end)
  }

  /** What goes on into the next line: an open comment, or an open backtick string. */
  function Carries(end: Ending): Mode {
    match end
    case OpenNote(_) => Block
    case OpenString(quote, _) => if quote == '`' then Str('`') else Code
    case _ => Code
  }

  // ----- one segment -----

  lemma {:induction false} StringReads(body: string, quote: char, rest: string, lang: Lang)
    requires Quotes(quote, lang) && IsStringBody(body, quote)
    ensures Pieces(body + [quote] + rest, Str(quote), lang) == Pieces(rest, Code, lang)
    ensures After(body + [quote] + rest, Str(quote), lang) == After(rest, Code, lang)
    decreases |body|
  {
    var s := body + [quote] + rest;
    if body == "" {
      assert s[1..] == rest;
    } else if body[0] == '\\' && quote != '`' {
      assert s[1..][0] == body[1] && s[1..][1..] == body[2..] + [quote] + rest;
      StringReads(body[2..], quote, rest, lang);
    } else {
      assert s[1..] == body[1..] + [quote] + rest;
      StringReads(body[1..], quote, rest, lang);
    }
  }

  lemma {:induction false} OpenStringReads(body: string, quote: char, lang: Lang)
    requires Quotes(quote, lang) && IsOpenBody(body, quote)
    ensures Pieces(body, Str(quote), lang) == []
    ensures Newline(After(body, Str(quote), lang)) == if quote == '`' then Str('`') else Code
    decreases |body|
  {
    if body == "" {
    } else if body[0] == '\\' && quote != '`' {
      if |body| >= 2 {
        assert body[1..][0] == body[1] && body[1..][1..] == body[2..];
        OpenStringReads(body[2..], quote, lang);
      } else {
        assert body[1..] == "";
      }
    } else {
      OpenStringReads(body[1..], quote, lang);
    }
  }

  lemma {:induction false} InnerClosesFirst(inner: string, rest: string)
    requires IsInner(inner)
    ensures CloseAt(inner + "*/" + rest) == |inner|
  {
    var s := inner + "*/" + rest;
    assert s[|inner|] == '*' && s[|inner| + 1] == '/';
    if inner != "" {
      assert s[0] == inner[0] && s[1] == if |inner| > 1 then inner[1] else '*';
      assert s[1..] == inner[1..] + "*/" + rest;
      assert forall k :: 0 <= k < |inner[1..]| ==> inner[1..][k] == inner[k + 1];
      InnerClosesFirst(inner[1..], rest);
    }
  }

  lemma {:induction false} InnerNeverCloses(inner: string)
    requires IsInner(inner)
    ensures CloseAt(inner) == |inner|
  {
    if |inner| >= 2 {
      assert forall k :: 0 <= k < |inner[1..]| ==> inner[1..][k] == inner[k + 1];
      InnerNeverCloses(inner[1..]);
    }
  }

  lemma PlainReads(c: char, next: string, lang: Lang)
    requires IsSegment(Plain(c), next, lang)
    ensures Pieces([c] + next, Code, lang) == Pieces(next, Code, lang)
    ensures Newline(After([c] + next, Code, lang)) == Newline(After(next, Code, lang))
  {
    var s := [c] + next;
    assert s[1..] == next;
    if c == '/' { SlashIsCode(next, lang); }
  }

  lemma QuotedReads(quote: char, body: string, next: string, lang: Lang)
    requires IsSegment(Quoted(quote, body), next, lang)
    ensures Pieces([quote] + body + [quote] + next, Code, lang) == Pieces(next, Code, lang)
    ensures After([quote] + body + [quote] + next, Code, lang) == After(next, Code, lang)
  {
    var s := [quote] + body + [quote] + next;
    assert s[1..] == body + [quote] + next;
    StringReads(body, quote, next, lang);
  }

  lemma NoteReads(inner: string, next: string, lang: Lang)
    requires IsInner(inner)
    ensures Pieces("/*" + inner + "*/" + next, Code, lang) == [inner] + Pieces(next, Code, lang)
    ensures Newline(After("/*" + inner + "*/" + next, Code, lang)) == Newline(After(next, Code, lang))
  {
    var s := "/*" + inner + "*/" + next;
    var t := inner + "*/" + next;
    assert s[2..] == t && t[..|inner|] == inner && t[|inner| + 2..] == next && s[|inner| + 4..] == next;
    InnerClosesFirst(inner, next);
    OpenBlockReads(s, lang);
  }

  lemma EndReads(end: Ending, lang: Lang)
    requires IsEnding(end, lang)
    ensures Pieces(EndText(end), Code, lang) == Notes([], end)
    ensures Newline(After(EndText(end), Code, lang)) == Carries(end)
  {
    var s := EndText(end);
    match end
    case Nothing =>
    case ToEnd(mark, text) =>
      assert s[|mark|..] == text;
      OpensReads(s, lang);
    case OpenNote(inner) =>
      assert s[2..] == inner;
      InnerNeverCloses(inner);
      OpenBlockReads(s, lang);
    case OpenString(quote, body) =>
      assert s[1..] == body;
      OpenStringReads(body, quote, lang);
  }

  /** The scanner finds the comments of every reading, in order, and carries on what it leaves open. */
  lemma {:induction false} ReadingIsScanned(segments: seq<Segment>, end: Ending, lang: Lang)
    requires IsReading(segments, end, lang)
    ensures Pieces(TextOf(segments, end), Code, lang) == Notes(segments, end)
    ensures Newline(After(TextOf(segments, end), Code, lang)) == Carries(end)
  {
    hide Pieces, After, IsStringBody, IsOpenBody, IsInner, Quotes;
    if segments == [] {
      EndReads(end, lang);
    } else {
      var next := TextOf(segments[1..], end);
      ReadingIsScanned(segments[1..], end, lang);
      match segments[0]
      case Plain(c) => PlainReads(c, next, lang);
      case Quoted(quote, body) => QuotedReads(quote, body, next, lang);
      case Note(inner) => NoteReads(inner, next, lang);
    }
  }

  // ----- every line has a reading -----

  /** Where the string opened just before `s` closes, if it does on this line. */
  lemma {:induction false} StringSplits(s: string, quote: char) returns (closed: bool, body: string)
    ensures if closed then IsStringBody(body, quote) && body + [quote] <= s else body == s && IsOpenBody(s, quote)
    decreases |s|
  {
    if s == "" {
      return false, s;
    } else if s[0] == '\\' && quote != '`' {
      if |s| == 1 { return false, s; }
      var rest;
      closed, rest := StringSplits(s[2..], quote);
      body := s[..2] + rest;
      assert s == s[..2] + s[2..] && body[2..] == rest;
    } else if s[0] == quote {
      return true, "";
    } else {
      var rest;
      closed, rest := StringSplits(s[1..], quote);
      body := [s[0]] + rest;
      assert s == [s[0]] + s[1..] && body[1..] == rest;
    }
  }

  lemma {:induction false} CloseIsFirst(s: string)
    ensures IsInner(s[..CloseAt(s)])
  {
    if CloseAt(s) > 0 && |s| >= 2 {
      CloseIsFirst(s[1..]);
      var inner := s[..CloseAt(s)];
      assert s[1..][..CloseAt(s[1..])] == inner[1..];
      forall k | 0 <= k < |inner| - 1 ensures !(inner[k] == '*' && inner[k + 1] == '/') {
        if k > 0 { assert inner[k] == inner[1..][k - 1] && inner[k + 1] == inner[1..][k]; }
      }
    }
  }

  /** What a line begins with: its first segment, or its ending when nothing follows. */
  predicate Begins(line: string, first: Option<Segment>, end: Ending, lang: Lang) {
    match first
    case None => EndText(end) == line && IsEnding(end, lang)
    case Some(segment) =>
      var text := Render(segment);
      text != "" && text <= line && IsSegment(segment, line[|text|..], lang)
  }

  lemma FirstNote(line: string, lang: Lang) returns (first: Option<Segment>, end: Ending)
    requires "/*" <= line
    ensures Begins(line, first, end, lang)
  {
    hide IsInner;
    var rest := line[2..];
    var k := CloseAt(rest);
    CloseIsFirst(rest);
    first, end := None, OpenNote(rest);
    if k == |rest| {
      assert rest[..k] == rest;
    } else {
      assert line == "/*" + rest && rest == rest[..k] + "*/" + rest[k + 2..];
      first := Some(Note(rest[..k]));
    }
  }

  lemma FirstString(line: string, lang: Lang) returns (first: Option<Segment>, end: Ending)
    requires line != "" && Quotes(line[0], lang)
    ensures Begins(line, first, end, lang)
  {
    hide IsStringBody, IsOpenBody;
    var closed, body := StringSplits(line[1..], line[0]);
    assert line == [line[0]] + line[1..];
    first, end := if closed then Some(Quoted(line[0], body)) else None, OpenString(line[0], body);
  }

  lemma FirstSegment(line: string, lang: Lang) returns (first: Option<Segment>, end: Ending)
    ensures Begins(line, first, end, lang)
  {
    first, end := None, Nothing;
    if line == "" {
    } else if "//" <= line {
      end := ToEnd("//", line[2..]);
    } else if line[0] == '#' && lang == Hcl {
      end := ToEnd("#", line[1..]);
    } else if "/*" <= line {
      first, end := FirstNote(line, lang);
    } else if Quotes(line[0], lang) {
      first, end := FirstString(line, lang);
    } else {
      first := Some(Plain(line[0]));
    }
  }

  /** Every line reads in some way, so the scanner's answer is the one above on every line. */
  lemma {:induction false} EveryLineReads(line: string, lang: Lang) returns (segments: seq<Segment>, end: Ending)
    ensures IsReading(segments, end, lang) && TextOf(segments, end) == line
    decreases |line|
  {
    hide IsSegment, IsEnding;
    var first;
    first, end := FirstSegment(line, lang);
    if first.None? { return [], end; }
    var text := Render(first.value);
    var rest;
    rest, end := EveryLineReads(line[|text|..], lang);
    segments := [first.value] + rest;
    assert segments[1..] == rest;
  }

  predicate HoldsComment(segments: seq<Segment>, end: Ending) {
    (exists k :: 0 <= k < |segments| && segments[k].Note?) || end.ToEnd? || end.OpenNote?
  }

  /** A line that begins in code carries a comment exactly when its reading has one: strings hide every delimiter. */
  lemma {:induction false} CommentExactly(segments: seq<Segment>, end: Ending, lang: Lang)
    requires IsReading(segments, end, lang)
    ensures Body(Pieces(TextOf(segments, end), Code, lang), false).Some? <==> HoldsComment(segments, end)
    ensures Notes(segments, end) != [] <==> HoldsComment(segments, end)
  {
    hide Pieces, IsSegment, IsEnding;
    ReadingIsScanned(segments, end, lang);
    if segments != [] {
      CommentExactly(segments[1..], end, lang);
      assert forall k :: 0 < k < |segments| ==> segments[k] == segments[1..][k - 1];
    }
  }

  lemma {:induction false} PlainsRead(text: string, next: string, lang: Lang)
    requires forall i :: 0 <= i < |text| ==> !Quotes(text[i], lang) && text[i] != '/' && text[i] != '#'
    ensures Pieces(text + next, Code, lang) == Pieces(next, Code, lang)
  {
    hide Pieces, Quotes;
    if text == "" {
      assert text + next == next;
    } else {
      assert text + next == [text[0]] + (text[1..] + next);
      PlainReads(text[0], text[1..] + next, lang);
      PlainsRead(text[1..], next, lang);
    }
  }

  /** An address between quotes is no comment, in any of the languages; without the quotes it is. */
  lemma QuotedAddressIsCode(quote: char, lang: Lang)
    requires quote == '\"' || quote == '\''
    ensures Body(Pieces("u=" + [quote] + "http:" + "//x" + [quote] + ";", Code, lang), false) == None
    ensures Body(Pieces("u=http:" + "//x;", Code, lang), false) == Some("x;")
  {
    hide Pieces, Strip;
    var address := "http:" + "//x";
    var line := [quote] + address + [quote] + ";";
    StringBodyIsPlain(address, quote);
    PlainsRead("u=", line, lang);
    assert "u=" + [quote] + "http:" + "//x" + [quote] + ";" == "u=" + line;
    QuotedReads(quote, address, ";", lang);
    PlainsRead(";", "", lang);
    EndReads(Nothing, lang);
    assert ";" + "" == ";";
    PlainsRead("u=http:", "//x;", lang);
    EndReads(ToEnd("//", "x;"), lang);
    assert "//" + "x;" == "//x;";
    OneNote("x;");
    TrimIsStripped("x;");
  }

  lemma {:induction false} StringBodyIsPlain(body: string, quote: char)
    requires forall i :: 0 <= i < |body| ==> body[i] != quote && body[i] != '\\'
    ensures IsStringBody(body, quote)
  {
    if body != "" { StringBodyIsPlain(body[1..], quote); }
  }

  // ----- lines that begin inside a comment or a string -----

  /** Inside a block comment a line is comment up to the first closing delimiter, and code from there. */
  lemma BlockLineIsScanned(inner: string, segments: seq<Segment>, end: Ending, lang: Lang)
    requires IsInner(inner) && IsReading(segments, end, lang)
    ensures Pieces(inner, Block, lang) == [inner] && Newline(After(inner, Block, lang)) == Block
    ensures var line := inner + "*/" + TextOf(segments, end);
            Pieces(line, Block, lang) == [inner] + Notes(segments, end) &&
            Newline(After(line, Block, lang)) == Carries(end)
  {
    hide Pieces, After, IsInner, IsReading;
    var rest := TextOf(segments, end);
    var line := inner + "*/" + rest;
    InnerNeverCloses(inner);
    BlockReads(inner, lang);
    InnerClosesFirst(inner, rest);
    BlockReads(line, lang);
    assert line[..|inner|] == inner && line[|inner| + 2..] == rest;
    ReadingIsScanned(segments, end, lang);
  }

  /** Inside a backtick string a line is hidden up to the next backtick, whatever it holds. */
  lemma StringLineIsScanned(body: string, segments: seq<Segment>, end: Ending, lang: Lang)
    requires (lang == TypeScript || lang == Go) && (forall k :: 0 <= k < |body| ==> body[k] != '`')
    requires IsReading(segments, end, lang)
    ensures Pieces(body, Str('`'), lang) == [] && Newline(After(body, Str('`'), lang)) == Str('`')
    ensures var line := body + "`" + TextOf(segments, end);
            Pieces(line, Str('`'), lang) == Notes(segments, end) &&
            Newline(After(line, Str('`'), lang)) == Carries(end)
  {
    hide Pieces, After, IsReading;
    BacktickBody(body);
    OpenStringReads(body, '`', lang);
    StringReads(body, '`', TextOf(segments, end), lang);
    ReadingIsScanned(segments, end, lang);
  }

  lemma {:induction false} BacktickBody(body: string)
    ensures (forall k :: 0 <= k < |body| ==> body[k] != '`') <==> IsStringBody(body, '`')
    ensures IsStringBody(body, '`') <==> IsOpenBody(body, '`')
  {
    if body != "" {
      BacktickBody(body[1..]);
      assert forall k :: 0 < k < |body| ==> body[k] == body[1..][k - 1];
    }
  }

  // ----- the body of a line -----

  /** The body of one comment: its text, without the spaces around it. */
  lemma OneNote(inner: string)
    ensures Body([], false) == None
    ensures Body([inner], false) == Some(Strip(inner))
  {
    var clean := Clean([inner], false);
    assert clean == [Strip(inner)] && clean[1..] == [] && NonEmpty([]) == [];
  }

  /** Where a block comment continues, the stars in front of its text go as well. */
  lemma ContinuedNote(before: string, stars: string, gap: string, inner: string, after: string)
    requires AllSpace(before) && AllSpace(gap) && AllSpace(after) && Trim(inner) && AllChar(stars, '*')
    requires inner == "" || inner[0] != '*' || (stars != "" && gap != "")
    ensures Body([before + stars + gap + inner + after], true) == Some(inner)
  {
    var line := before + stars + gap + inner + after;
    OneBody(line);
    MarksStripped(before, stars, gap, inner, after, '*');
  }

  /** One more comment on the line: its text joins the others after a space, unless it is empty. */
  lemma OneMoreNote(pieces: seq<string>, inner: string, continues: bool)
    requires pieces != []
    ensures Body(pieces, continues).Some?
    ensures var before, text := Body(pieces, continues).value, Strip(inner);
            Body(pieces + [inner], continues) ==
            Some(if text == "" then before else if before == "" then text else before + " " + text)
  {
    hide Strip, CleanFirst;
    CleanPush(pieces, inner, continues);
    JoinNonEmptyPush(Clean(pieces, continues), Strip(inner));
  }
}
