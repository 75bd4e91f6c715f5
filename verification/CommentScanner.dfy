/**
 * The comment linter's scanner for HCL, TypeScript, C# and Go. The scanner works one line at a time and
 * carries a small state between lines; its specification is an automaton that reads the whole text one
 * character at a time.
 */
module CommentScanner {
  import opened Options
  import opened Text

  datatype Lang = Hcl | TypeScript | CSharp | Go

  // ----- the automaton -----

  /** BlockStar is a block comment just after a '*'; Slash is code just after a '/'. */
  datatype Mode = Code | Slash | LineComment | Block | BlockStar | Str(quote: char) | Esc(quote: char)

  predicate InComment(m: Mode) { m.LineComment? || m.Block? || m.BlockStar? }

  predicate IsQuote(c: char, lang: Lang) {
    c == '"' || c == '\'' || (c == '`' && (lang == TypeScript || lang == Go))
  }

  function FromCode(c: char, lang: Lang): Mode {
    if c == '/' then Slash
    else if c == '#' && lang == Hcl then LineComment
    else if IsQuote(c, lang) then Str(c)
    else Code
  }

  function Step(m: Mode, c: char, lang: Lang): Mode {
    match m
    case Code => FromCode(c, lang)
    case Slash => if c == '/' then LineComment else if c == '*' then Block else FromCode(c, lang)
    case LineComment => LineComment
    case Block => if c == '*' then BlockStar else Block
    case BlockStar => if c == '/' then Code else if c == '*' then BlockStar else Block
    case Str(q) => if c == '\\' && q != '`' then Esc(q) else if c == q then Code else m
    case Esc(q) => Str(q)
  }

  /** Only a block comment and a backtick string go on past the end of a line. */
  function Newline(m: Mode): Mode {
    if m.Block? || m.BlockStar? then Block else if m == Str('`') then m else Code
  }

  function Onto(head: string, pieces: seq<string>): (p: seq<string>)
    ensures p != []
  {
    if pieces == [] then [head] else [head + pieces[0]] + pieces[1..]
  }

  function AtEnd(m: Mode): seq<string> {
    if m.BlockStar? then ["*"] else if InComment(m) then [""] else []
  }

  /** Puts a character in front of the comment pieces read after it; a '*' waits to see whether it closes. */
  function Emit(m: Mode, c: char, rest: seq<string>): seq<string> {
    match m
    case LineComment => Onto([c], rest)
    case Block => if c == '*' then rest else Onto([c], rest)
    case BlockStar =>
      if c == '/' then [""] + rest
      else if c == '*' then Onto("*", rest)
      else Onto(['*', c], rest)
    case _ => rest
  }

  /**
   * The comment text of each line, one piece per comment; a line without any carries no comment. The first
   * piece is the rest of the comment the text starts in, if it starts in one.
   */
  function Read(text: string, m: Mode, lang: Lang): (lines: seq<seq<string>>)
    ensures lines != [] && (InComment(m) ==> lines[0] != [])
  {
    if text == "" then [AtEnd(m)]
    else if text[0] == '\n' then [AtEnd(m)] + Read(text[1..], Newline(m), lang)
    else
      var rest := Read(text[1..], Step(m, text[0], lang), lang);
      [Emit(m, text[0], rest[0])] + rest[1..]
  }

  // ----- one line of it -----

  function Pieces(line: string, m: Mode, lang: Lang): (p: seq<string>)
    ensures InComment(m) ==> p != []
  {
    if line == "" then AtEnd(m) else Emit(m, line[0], Pieces(line[1..], Step(m, line[0], lang), lang))
  }

  function After(line: string, m: Mode, lang: Lang): Mode {
    if line == "" then m else After(line[1..], Step(m, line[0], lang), lang)
  }

  lemma {:induction false} ReadLine(line: string, rest: string, m: Mode, lang: Lang)
    requires IsLine(line)
    ensures Read(line, m, lang) == [Pieces(line, m, lang)]
    ensures Read(line + "\n" + rest, m, lang) ==
            [Pieces(line, m, lang)] + Read(rest, Newline(After(line, m, lang)), lang)
  {
    var text := line + "\n" + rest;
    if line == "" {
      assert text[1..] == rest;
    } else {
      assert text[1..] == line[1..] + "\n" + rest;
      assert IsLine(line[1..]);
      ReadLine(line[1..], rest, Step(m, line[0], lang), lang);
    }
  }

  /** The comment pieces of every line, the mode threaded from one line to the next. */
  function LinePieces(lines: seq<string>, m: Mode, lang: Lang): (p: seq<seq<string>>)
    ensures |p| == |lines|
  {
    if lines == [] then []
    else [Pieces(lines[0], m, lang)] + LinePieces(lines[1..], Newline(After(lines[0], m, lang)), lang)
  }

  /** Reading line by line finds the comments that one pass over the characters of the whole text finds. */
  lemma {:induction false} LinesReadAsText(lines: seq<string>, m: Mode, lang: Lang)
    requires lines != [] && AreLines(lines)
    ensures LinePieces(lines, m, lang) == Read(Join(lines, "\n"), m, lang)
  {
    if |lines| == 1 {
      ReadLine(lines[0], "", m, lang);
    } else {
      ReadLine(lines[0], Join(lines[1..], "\n"), m, lang);
      LinesReadAsText(lines[1..], Newline(After(lines[0], m, lang)), lang);
    }
  }

  // ----- what the scanner's jumps skip -----

  /** Where a star followed by a slash first stands, or the length. */
  function CloseAt(s: string): (k: nat)
    ensures k <= |s|
    ensures k < |s| ==> k + 1 < |s| && s[k] == '*' && s[k + 1] == '/'
  {
    if |s| < 2 then |s| else if s[0] == '*' && s[1] == '/' then 0 else 1 + CloseAt(s[1..])
  }

  lemma OntoTwice(a: string, b: string, pieces: seq<string>)
    ensures Onto(a, Onto(b, pieces)) == Onto(a + b, pieces)
  {
    if pieces != [] { assert a + (b + pieces[0]) == a + b + pieces[0]; }
  }

  /** A character of a block comment that does not close it. */
  lemma BlockSkips(s: string, lang: Lang)
    requires s != "" && (|s| == 1 || s[0] != '*' || s[1] != '/')
    ensures Pieces(s, Block, lang) == Onto([s[0]], Pieces(s[1..], Block, lang))
    ensures Newline(After(s, Block, lang)) == Newline(After(s[1..], Block, lang))
  {
    assert s[0] == '*' ==> [s[0]] == "*";
    if |s| == 1 {
      assert s[1..] == "" && [s[0]] + "" == [s[0]];
    } else if s[0] == '*' {
      var t := s[1..];
      assert Pieces(s, Block, lang) == Pieces(t, BlockStar, lang);
      if t[0] != '*' {
        var rest := Pieces(t[1..], Block, lang);
        assert ['*', t[0]] == "*" + [t[0]];
        OntoTwice("*", [t[0]], rest);
        assert Pieces(t, BlockStar, lang) == Onto(['*', t[0]], rest);
      }
    }
  }

  lemma BlockCloses(s: string, lang: Lang)
    requires |s| >= 2 && s[0] == '*' && s[1] == '/'
    ensures Pieces(s, Block, lang) == [""] + Pieces(s[2..], Code, lang)
    ensures After(s, Block, lang) == After(s[2..], Code, lang)
  {
    var t := s[1..];
    assert t[1..] == s[2..];
    assert Pieces(s, Block, lang) == Pieces(t, BlockStar, lang);
  }

  /** A whole block comment at once: up to its closing delimiter, or to the end of the line. */
  lemma {:induction false} BlockReads(s: string, lang: Lang)
    ensures var k := CloseAt(s);
            if k < |s|
            then Pieces(s, Block, lang) == [s[..k]] + Pieces(s[k + 2..], Code, lang)
                 && Newline(After(s, Block, lang)) == Newline(After(s[k + 2..], Code, lang))
            else Pieces(s, Block, lang) == [s] && Newline(After(s, Block, lang)) == Block
  {
    if s == "" {
    } else if |s| >= 2 && s[0] == '*' && s[1] == '/' {
      BlockCloses(s, lang);
      assert s[..0] == "";
    } else {
      BlockSkips(s, lang);
      BlockReads(s[1..], lang);
      var k := CloseAt(s[1..]);
      assert CloseAt(s) == k + 1;
      if k < |s| - 1 {
        assert [s[0]] + s[1..][..k] == s[..k + 1];
        assert s[1..][k + 2..] == s[k + 3..];
      } else {
        assert [s[0]] + s[1..] == s;
      }
    }
  }

  lemma {:induction false} LineCommentReads(s: string, lang: Lang)
    ensures Pieces(s, LineComment, lang) == [s] && After(s, LineComment, lang) == LineComment
  {
    if s != "" {
      LineCommentReads(s[1..], lang);
      assert [s[0]] + s[1..] == s;
    }
  }

  /** A slash that opens nothing is code. */
  lemma SlashIsCode(s: string, lang: Lang)
    requires s == "" || (s[0] != '/' && s[0] != '*')
    ensures Pieces(s, Slash, lang) == Pieces(s, Code, lang)
    ensures Newline(After(s, Slash, lang)) == Newline(After(s, Code, lang))
  {
  }

  /** The automaton at a cursor on an opening delimiter. */
  lemma OpensReads(s: string, lang: Lang)
    requires s != ""
    ensures "//" <= s ==> Pieces(s, Code, lang) == [s[2..]] && After(s, Code, lang) == LineComment
    ensures s[0] == '#' && lang == Hcl ==> Pieces(s, Code, lang) == [s[1..]] && After(s, Code, lang) == LineComment
    ensures "/*" <= s ==>
              Pieces(s, Code, lang) == Pieces(s[2..], Block, lang) && After(s, Code, lang) == After(s[2..], Block, lang)
    ensures !("//" <= s) && !("/*" <= s) && !(s[0] == '#' && lang == Hcl) ==>
              var n := if IsQuote(s[0], lang) then Str(s[0]) else Code;
              Pieces(s, Code, lang) == Pieces(s[1..], n, lang) &&
                Newline(After(s, Code, lang)) == Newline(After(s[1..], n, lang))
  {
    LineCommentReads(s[1..], lang);
    if |s| >= 2 {
      assert s[1..][1..] == s[2..];
      LineCommentReads(s[2..], lang);
      if s[1] != '/' && s[1] != '*' { SlashIsCode(s[1..], lang); }
    }
  }

  /** The scanner has taken `pieces` off a line and stands at `cursor`, where the automaton is in `m`. */
  ghost predicate Scanned(line: string, start: Mode, pieces: seq<string>, cursor: nat, m: Mode, lang: Lang) {
    && cursor <= |line|
    && Pieces(line, start, lang) == pieces + Pieces(line[cursor..], m, lang)
    && Newline(After(line, start, lang)) == Newline(After(line[cursor..], m, lang))
  }

  lemma StringAdvances(line: string, start: Mode, pieces: seq<string>, cursor: nat, m: Mode, lang: Lang)
    requires Scanned(line, start, pieces, cursor, m, lang) && cursor < |line| && (m.Str? || m.Esc?)
    ensures var c := line[cursor];
            var n := if m.Esc? then Str(m.quote) else if c == '\\' && m.quote != '`' then Esc(m.quote)
                     else if c == m.quote then Code else m;
            Scanned(line, start, pieces, cursor + 1, n, lang)
  {
    assert line[cursor..][1..] == line[cursor + 1..];
  }

  lemma LineEnds(line: string, start: Mode, pieces: seq<string>, m: Mode, lang: Lang)
    requires Scanned(line, start, pieces, |line|, m, lang) && (m.Code? || m.Str? || m.Esc?)
    ensures Pieces(line, start, lang) == pieces && Newline(After(line, start, lang)) == Newline(m)
  {
  }

  lemma CodeAdvances(line: string, start: Mode, pieces: seq<string>, cursor: nat, lang: Lang)
    requires Scanned(line, start, pieces, cursor, Code, lang) && cursor < |line|
    requires !("//" <= line[cursor..]) && !("/*" <= line[cursor..]) && !(line[cursor] == '#' && lang == Hcl)
    ensures Scanned(
              line, start, pieces, cursor + 1, if IsQuote(line[cursor], lang) then Str(line[cursor]) else Code, lang)
  {
    OpensReads(line[cursor..], lang);
    assert line[cursor..][1..] == line[cursor + 1..];
  }

  lemma LineCommentEnds(line: string, start: Mode, pieces: seq<string>, cursor: nat, width: nat, lang: Lang)
    requires Scanned(line, start, pieces, cursor, Code, lang) && cursor < |line|
    requires (width == 2 && "//" <= line[cursor..]) || (width == 1 && line[cursor] == '#' && lang == Hcl)
    ensures Pieces(line, start, lang) == pieces + [line[cursor + width..]] && Newline(After(line, start, lang)) == Code
  {
    OpensReads(line[cursor..], lang);
    assert line[cursor..][width..] == line[cursor + width..];
  }

  /** An opening delimiter and the whole comment it opens. */
  lemma OpenBlockReads(s: string, lang: Lang)
    requires "/*" <= s
    ensures var k := CloseAt(s[2..]);
            if k < |s| - 2
            then Pieces(s, Code, lang) == [s[2..][..k]] + Pieces(s[k + 4..], Code, lang)
                 && Newline(After(s, Code, lang)) == Newline(After(s[k + 4..], Code, lang))
            else Pieces(s, Code, lang) == [s[2..]] && Newline(After(s, Code, lang)) == Block
  {
    OpensReads(s, lang);
    BlockReads(s[2..], lang);
    var k := CloseAt(s[2..]);
    if k < |s| - 2 { assert s[2..][k + 2..] == s[k + 4..]; }
  }

  lemma Regroup(a: seq<string>, b: string, c: seq<string>)
    ensures a + ([b] + c) == (a + [b]) + c
  {
  }

  lemma BlockAdvances(line: string, start: Mode, pieces: seq<string>, cursor: nat, lang: Lang)
    requires Scanned(line, start, pieces, cursor, Code, lang) && "/*" <= line[cursor..]
    ensures var inner := line[cursor + 2..];
            var k := CloseAt(inner);
            if k < |inner|
            then Scanned(line, start, pieces + [inner[..k]], cursor + k + 4, Code, lang)
            else Pieces(line, start, lang) == pieces + [inner] && Newline(After(line, start, lang)) == Block
  {
    hide Pieces, After, CloseAt;
    var rest, inner := line[cursor..], line[cursor + 2..];
    var k := CloseAt(inner);
    OpenBlockReads(rest, lang);
    assert rest[2..] == inner;
    if k < |inner| {
      assert rest[k + 4..] == line[cursor + k + 4..];
      Regroup(pieces, inner[..k], Pieces(rest[k + 4..], Code, lang));
    }
  }

  lemma {:induction false} OpenBlockIsSeen(line: string, m: Mode, lang: Lang)
    requires InComment(After(line, m, lang))
    ensures Pieces(line, m, lang) != []
  {
    if line != "" { OpenBlockIsSeen(line[1..], Step(m, line[0], lang), lang); }
  }

  // ----- the scanner -----

  /** A block comment's continuation lines lose their leading stars. */
  function CleanFirst(piece: string): string { Strip(LStripChar(Strip(piece), '*')) }

  function Clean(pieces: seq<string>, continues: bool): seq<string> {
    seq(|pieces|, i requires 0 <= i < |pieces| =>
      if i == 0 && continues then CleanFirst(pieces[i]) else Strip(pieces[i]))
  }

  function Body(pieces: seq<string>, continues: bool): Option<string> {
    if pieces == [] then None else Some(Join(NonEmpty(Clean(pieces, continues)), " "))
  }

  lemma CleanPush(pieces: seq<string>, piece: string, continues: bool)
    requires continues ==> pieces != []
    ensures Clean(pieces + [piece], continues) == Clean(pieces, continues) + [Strip(piece)]
  {
  }

  lemma OneBody(line: string)
    ensures Body([line], true) == Some(CleanFirst(line))
  {
    assert Clean([line], true) == [CleanFirst(line)];
    assert NonEmpty([CleanFirst(line)]) == if CleanFirst(line) == "" then [] else [CleanFirst(line)];
  }

  /** The comment body of every line, or None where it carries no comment. */
  function Bodies(lines: seq<string>, m: Mode, lang: Lang): (b: seq<Option<string>>)
    ensures |b| == |lines|
  {
    if lines == [] then []
    else [Body(Pieces(lines[0], m, lang), m.Block?)] + Bodies(lines[1..], Newline(After(lines[0], m, lang)), lang)
  }

  function Within(quote: Option<char>, escaped: bool): Mode {
    if quote.None? then Code else if escaped then Esc(quote.value) else Str(quote.value)
  }

  class Scanner {
    const lang: Lang
    var inBlock: bool
    var stringQuote: Option<char>

    /** Never inside a block comment and a string at once. */
    ghost predicate Valid()
      reads this
    {
      !(inBlock && stringQuote.Some?) && (stringQuote.Some? ==> stringQuote.value == '`')
    }

    ghost function Carried(): Mode
      reads this
    {
      if inBlock then Block else Within(stringQuote, false)
    }

    constructor (lang: Lang)
      ensures Valid() && Carried() == Code && this.lang == lang
    {
      this.lang := lang;
      inBlock := false;
      stringQuote := None;
    }

    method ScanComment(line: string) returns (body: Option<string>)
      requires Valid()
      modifies this
      ensures Valid() && Carried() == Newline(After(line, old(Carried()), lang))
      ensures body == Body(Pieces(line, old(Carried()), lang), old(inBlock))
    {
      hide Pieces, After, Step, CloseAt, Strip, LStrip, RStrip, LStripChar, Join, NonEmpty, CleanFirst;
      var bodies: seq<string> := [];
      var cursor := 0;
      ghost var pieces: seq<string> := [];
      ghost var start, continues := Carried(), inBlock;

      if inBlock {
        BlockReads(line, lang);
        var close := CloseAt(line);
        if close == |line| {
          OneBody(line);
          return Some(CleanFirst(line));
        }
        bodies, pieces := [CleanFirst(line[..close])], [line[..close]];
        inBlock := false;
        cursor := close + 2;
      }

      var quote, escaped := stringQuote, false;
      assert Scanned(line, start, pieces, cursor, Within(quote, escaped), lang) by { assert line[0..] == line; }
      while cursor < |line|
        invariant cursor <= |line| && !inBlock && (escaped ==> quote.Some? && quote.value != '`')
        invariant bodies == Clean(pieces, continues) && (continues ==> pieces != [])
        invariant Scanned(line, start, pieces, cursor, Within(quote, escaped), lang)
      {
        if quote.Some? {
          StringAdvances(line, start, pieces, cursor, Within(quote, escaped), lang);
          var c := line[cursor];
          if escaped {
            escaped := false;
          } else if c == '\\' && quote != Some('`') {
            escaped := true;
          } else if c == quote.value {
            quote := None;
          }
          cursor := cursor + 1;
          continue;
        }

        if "//" <= line[cursor..] {
          LineCommentEnds(line, start, pieces, cursor, 2, lang);
          CleanPush(pieces, line[cursor + 2..], continues);
          bodies, pieces := bodies + [Strip(line[cursor + 2..])], pieces + [line[cursor + 2..]];
          break;
        }
        if lang == Hcl && line[cursor] == '#' {
          LineCommentEnds(line, start, pieces, cursor, 1, lang);
          CleanPush(pieces, line[cursor + 1..], continues);
          bodies, pieces := bodies + [Strip(line[cursor + 1..])], pieces + [line[cursor + 1..]];
          break;
        }
        if "/*" <= line[cursor..] {
          BlockAdvances(line, start, pieces, cursor, lang);
          var inner := line[cursor + 2..];
          var close := CloseAt(inner);
          CleanPush(pieces, inner[..close], continues);
          if close == |inner| {
            assert inner[..close] == inner;
            bodies, pieces := bodies + [Strip(inner)], pieces + [inner];
            inBlock := true;
            break;
          }
          bodies, pieces := bodies + [Strip(inner[..close])], pieces + [inner[..close]];
          cursor := cursor + close + 4;
          continue;
        }

        CodeAdvances(line, start, pieces, cursor, lang);
        if IsQuote(line[cursor], lang) {
          quote := Some(line[cursor]);
        }
        cursor := cursor + 1;
      }

      if cursor == |line| && !inBlock { LineEnds(line, start, pieces, Within(quote, escaped), lang); }
      stringQuote := if quote == Some('`') then quote else None;
      assert pieces == Pieces(line, start, lang);
      body := if bodies != [] then Some(Join(NonEmpty(bodies), " ")) else None;
    }

    /** Marks the lines the automaton finds comment text on, and no others. */
    method IsCommentLine(line: string) returns (marked: bool, body: Option<string>)
      requires Valid()
      modifies this
      ensures Valid() && Carried() == Newline(After(line, old(Carried()), lang))
      ensures body == Body(Pieces(line, old(Carried()), lang), old(inBlock))
      ensures marked <==> Pieces(line, old(Carried()), lang) != []
      ensures marked <==> body.Some?
    {
      ghost var start := Carried();
      body := ScanComment(line);
      marked := body.Some? || inBlock;
      if inBlock { OpenBlockIsSeen(line, start, lang); }
    }
  }
}
