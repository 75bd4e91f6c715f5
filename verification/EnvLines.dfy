/** The two-box env file as a sequence of lines: markers, keys, and what each operation does to lines. */
module EnvLines {
  import opened Options
  import opened Text

  const AUTO_BEGIN_PREFIX := "# >>> AUTO-GENERATED"
  const AUTO_BEGIN := AUTO_BEGIN_PREFIX + " — rewritten" + " on every run," + " do not edit"
  const AUTO_END := "# <<< END AUTO-GENERATED"
  const CUSTOM_BEGIN := "# >>> CUSTOM" + " — yours to edit;" + " preserved across" + " regeneration"
  const CUSTOM_END := "# <<< END CUSTOM"

  predicate IsBegin(line: string) { CUSTOM_BEGIN <= line }

  predicate IsEnd(line: string) { CUSTOM_END <= line }

  predicate IsAutoBegin(line: string) { AUTO_BEGIN_PREFIX <= line }

  predicate IsAutoEnd(line: string) { AUTO_END <= line }

  predicate HasBox(lines: seq<string>) {
    exists i :: 0 <= i < |lines| && IsBegin(lines[i])
  }

  // ----- keys -----

  predicate HasEq(line: string) { Find(line, '=') < |line| }

  /** The key a line assigns, active or commented out. */
  function KeyOf(line: string): string {
    Strip(LStripChar(Strip(line[..Find(line, '=')]), '#'))
  }

  predicate IsKeyLine(line: string, key: string) { HasEq(line) && KeyOf(line) == key }

  function Unquote(value: string): string {
    if |value| >= 2 && value[0] == value[|value| - 1] && (value[0] == '"' || value[0] == '\'')
    then value[1..|value| - 1] else value
  }

  /** The assignment `parse` reads off one line: comments and blank lines carry none. */
  function Active(line: string): Option<(string, string)> {
    var s := Strip(line);
    if s == "" || s[0] == '#' || !HasEq(s) then None
    else Some((Strip(s[..Find(s, '=')]), Unquote(Strip(s[Find(s, '=') + 1..]))))
  }

  function Assign(key: string, value: string): string { key + "=" + value }

  /** A key that reads back as itself. */
  predicate WellKeyed(key: string) {
    && NoBreak(key) && Trim(key)
    && (forall i :: 0 <= i < |key| ==> key[i] != '=')
    && (key == "" || key[0] != '#')
  }

  /** The value `parse` ends with for a key: its last active assignment. */
  function Value(lines: seq<string>, key: string): Option<string> {
    if lines == [] then None
    else
      var later := Value(lines[1..], key);
      if later.Some? then later
      else
        var a := Active(lines[0]);
        if a.Some? && a.value.0 == key then Some(a.value.1) else None
  }

  lemma FindAt(s: string, c: char, k: nat)
    requires k < |s| && s[k] == c && forall i :: 0 <= i < k ==> s[i] != c
    ensures Find(s, c) == k
  {
  }

  lemma AssignParts(key: string, value: string)
    requires WellKeyed(key)
    ensures var line := Assign(key, value);
            HasEq(line) && line[..Find(line, '=')] == key && line[Find(line, '=') + 1..] == value
  {
    var line := Assign(key, value);
    assert forall i :: 0 <= i < |key| ==> line[i] == key[i];
    FindAt(line, '=', |key|);
  }

  lemma MarkersAreComments(line: string)
    ensures IsBegin(line) || IsEnd(line) || IsAutoBegin(line) || IsAutoEnd(line) ==> line != "" && line[0] == '#'
  {
    assert CUSTOM_BEGIN[0] == CUSTOM_END[0] == AUTO_BEGIN_PREFIX[0] == AUTO_END[0] == '#';
    if IsBegin(line) { assert line[0] == CUSTOM_BEGIN[0]; }
    if IsEnd(line) { assert line[0] == CUSTOM_END[0]; }
    if IsAutoBegin(line) { assert line[0] == AUTO_BEGIN_PREFIX[0]; }
    if IsAutoEnd(line) { assert line[0] == AUTO_END[0]; }
  }

  lemma AssignIsKeyLine(key: string, value: string)
    requires WellKeyed(key)
    ensures IsKeyLine(Assign(key, value), key)
    ensures !IsBegin(Assign(key, value)) && !IsEnd(Assign(key, value))
    ensures !IsAutoBegin(Assign(key, value)) && !IsAutoEnd(Assign(key, value))
    ensures !IsBlank(Assign(key, value))
  {
    AssignParts(key, value);
    TrimIsStripped(key);
    MarkersAreComments(Assign(key, value));
    NonSpaceIsNotBlank(Assign(key, value), |key|);
  }

  /** Stripping a line does not change what stands before its first '='. */
  lemma BeforeEqStripped(line: string)
    requires HasEq(Strip(line))
    ensures HasEq(line) && Strip(line[..Find(line, '=')]) == Strip(Strip(line)[..Find(Strip(line), '=')])
  {
    var s := Strip(line);
    var ws, rest := StripSplit(line);
    var k := Find(s, '=');
    forall i | 0 <= i < |ws| + k ensures line[i] != '=' {
      if i < |ws| { assert line[i] == ws[i] && IsSpace(ws[i]); } else { assert line[i] == s[i - |ws|]; }
    }
    assert line[|ws| + k] == s[k];
    FindAt(line, '=', |ws| + k);
    assert line[..|ws| + k] == ws + s[..k];
    LStripOver(ws, s[..k]);
  }

  lemma StripKeepsFirst(s: string)
    requires s != "" && !IsSpace(s[0])
    ensures Strip(s) != "" && Strip(s)[0] == s[0]
  {
    RStripEnds(s);
    RStripKeeps(s, 0);
  }

  /** An active line's key is also the key the CUSTOM box sees, so only its own setter touches it. */
  lemma ActiveIsKeyLine(line: string)
    requires Active(line).Some?
    ensures IsKeyLine(line, Active(line).value.0)
  {
    var s := Strip(line);
    BeforeEqStripped(line);
    StripTrims(line);
    var before := s[..Find(s, '=')];
    StripTrims(before);
    if before != "" { StripKeepsFirst(before); }
    TrimIsStripped(Strip(before));
  }

  lemma StripAfterRStrip(s: string)
    ensures Strip(RStrip(s)) == Strip(s)
  {
    RStripSplit(s);
    StripOver("", RStrip(s), s[|RStrip(s)|..]);
    assert "" + RStrip(s) + s[|RStrip(s)|..] == s;
  }

  /** What parse makes of a line written by a setter. */
  lemma AssignIsActive(key: string, value: string)
    requires WellKeyed(key)
    ensures Active(Assign(key, value)) == Some((key, Unquote(Strip(value))))
  {
    var line := Assign(key, value);
    assert line == (key + "=") + value;
    assert LStrip(line) == line;
    RStripAfterMark(key + "=", value);
    assert Strip(line) == Assign(key, RStrip(value));
    AssignParts(key, RStrip(value));
    TrimIsStripped(key);
    StripAfterRStrip(value);
  }

  lemma {:induction false} ValueConcat(a: seq<string>, b: seq<string>, key: string)
    ensures Value(a + b, key) == if Value(b, key).Some? then Value(b, key) else Value(a, key)
  {
    if a == [] {
      assert a + b == b;
    } else {
      assert (a + b)[1..] == a[1..] + b;
      ValueConcat(a[1..], b, key);
    }
  }
}
