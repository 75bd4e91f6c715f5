/** `set_custom_value` on lines: effect, frame, idempotence and commutation. */
module EnvSetter {
  import opened Options
  import opened Text
  import opened EnvLines

  /** The loop's two flags: inside a CUSTOM box, and the key already written. */
  datatype Flags = Flags(inside: bool, written: bool)

  const START := Flags(false, false)

  function Next(line: string, key: string, f: Flags): Flags {
    if !f.inside then f.(inside := IsBegin(line))
    else if IsEnd(line) then Flags(false, true)
    else f.(written := f.written || IsKeyLine(line, key))
  }

  /** The lines the loop appends for one line read. */
  function Emit(line: string, key: string, value: string, f: Flags): seq<string> {
    if !f.inside then [line]
    else if IsEnd(line) then if f.written then [line] else [Assign(key, value), line]
    else if IsKeyLine(line, key) then [Assign(key, value)]
    else [line]
  }

  function After(lines: seq<string>, key: string, f: Flags): Flags {
    if lines == [] then f else After(lines[1..], key, Next(lines[0], key, f))
  }

  function Set(lines: seq<string>, key: string, value: string, f: Flags): seq<string> {
    if lines == [] then [] else Emit(lines[0], key, value, f) + Set(lines[1..], key, value, Next(lines[0], key, f))
  }

  function SetLines(lines: seq<string>, key: string, value: string): seq<string> {
    Set(lines, key, value, START)
  }

  /** All lines but the CUSTOM ones that hold the key. */
  function Others(lines: seq<string>, key: string, inside: bool): seq<string> {
    if lines == [] then []
    else
      (if inside && !IsEnd(lines[0]) && IsKeyLine(lines[0], key) then [] else [lines[0]]) +
      Others(lines[1..], key, if inside then !IsEnd(lines[0]) else IsBegin(lines[0]))
  }

  /** The CUSTOM lines that hold the key, active or commented out. */
  function Held(lines: seq<string>, key: string, inside: bool): seq<string> {
    if lines == [] then []
    else
      (if inside && !IsEnd(lines[0]) && IsKeyLine(lines[0], key) then [lines[0]] else []) +
      Held(lines[1..], key, if inside then !IsEnd(lines[0]) else IsBegin(lines[0]))
  }

  predicate AllAre(lines: seq<string>, line: string) {
    forall i :: 0 <= i < |lines| ==> lines[i] == line
  }

  /** Whose line has the last word on a key: nobody's, the setter's, or one outside CUSTOM that assigns it. */
  datatype Word = Nobody | Setter | Outside(value: string)

  function LastWord(lines: seq<string>, key: string, f: Flags): Word {
    if lines == [] then Nobody
    else
      var later := LastWord(lines[1..], key, Next(lines[0], key, f));
      if later != Nobody then later
      else if f.inside then
        if (IsEnd(lines[0]) && !f.written) || (!IsEnd(lines[0]) && IsKeyLine(lines[0], key)) then Setter else Nobody
      else if Value([lines[0]], key).Some? then Outside(Value([lines[0]], key).value) else Nobody
  }

  /** What that makes parse read. */
  function Reading(word: Word, value: string): Option<string> {
    match word
    case Nobody => None
    case Setter => Some(Unquote(Strip(value)))
    case Outside(other) => Some(other)
  }

  lemma {:induction false} SetConcat(a: seq<string>, b: seq<string>, key: string, value: string, f: Flags)
    ensures Set(a + b, key, value, f) == Set(a, key, value, f) + Set(b, key, value, After(a, key, f))
    ensures After(a + b, key, f) == After(b, key, After(a, key, f))
  {
    hide KeyOf, IsEnd, IsBegin, HasEq;
    if a == [] {
      assert a + b == b;
    } else {
      assert (a + b)[1..] == a[1..] + b;
      SetConcat(a[1..], b, key, value, Next(a[0], key, f));
    }
  }

  /** Inside a CUSTOM box after one more line. */
  predicate Inside(line: string, inside: bool) { if inside then !IsEnd(line) else IsBegin(line) }

  lemma Step(lines: seq<string>, key: string, inside: bool)
    requires lines != []
    ensures var mine, next := inside && !IsEnd(lines[0]) && IsKeyLine(lines[0], key), Inside(lines[0], inside);
            && Held(lines, key, inside) == (if mine then [lines[0]] else []) + Held(lines[1..], key, next)
            && Others(lines, key, inside) == (if mine then [] else [lines[0]]) + Others(lines[1..], key, next)
  {
  }

  lemma {:induction false} OthersConcat(a: seq<string>, b: seq<string>, key: string, f: Flags)
    ensures Others(a + b, key, f.inside) == Others(a, key, f.inside) + Others(b, key, After(a, key, f).inside)
  {
    hide IsKeyLine, IsEnd, IsBegin, Others;
    if a == [] {
      assert a + b == b;
      NoneOf(key, f.inside);
    } else {
      assert (a + b)[1..] == a[1..] + b;
      OthersConcat(a[1..], b, key, Next(a[0], key, f));
      Step(a, key, f.inside);
      Step(a + b, key, f.inside);
    }
  }

  lemma {:induction false} HeldConcat(a: seq<string>, b: seq<string>, key: string, f: Flags)
    ensures Held(a + b, key, f.inside) == Held(a, key, f.inside) + Held(b, key, After(a, key, f).inside)
  {
    hide IsKeyLine, IsEnd, IsBegin, Held;
    if a == [] {
      assert a + b == b;
      NoneOf(key, f.inside);
    } else {
      assert (a + b)[1..] == a[1..] + b;
      HeldConcat(a[1..], b, key, Next(a[0], key, f));
      Step(a, key, f.inside);
      Step(a + b, key, f.inside);
    }
  }

  lemma NoneOf(key: string, inside: bool)
    ensures Held([], key, inside) == [] && Others([], key, inside) == []
  {
  }

  lemma One(line: string, key: string, value: string, f: Flags)
    ensures Set([line], key, value, f) == Emit(line, key, value, f)
    ensures After([line], key, f) == Next(line, key, f)
  {
    assert [line][1..] == [];
  }

  /** Reading back what was written for one line writes it again and leaves the same flags. */
  lemma EmitIsStable(line: string, key: string, value: string, f: Flags)
    requires WellKeyed(key)
    ensures Set(Emit(line, key, value, f), key, value, f) == Emit(line, key, value, f)
    ensures After(Emit(line, key, value, f), key, f) == Next(line, key, f)
  {
    AssignIsKeyLine(key, value);
    var assign := Assign(key, value);
    if f.inside && IsEnd(line) && !f.written {
      One(line, key, value, Next(assign, key, f));
      assert [assign, line][1..] == [line];
    } else {
      One(Emit(line, key, value, f)[0], key, value, f);
    }
  }

  /** Setting twice is setting once. */
  lemma {:induction false} SetIsIdempotent(lines: seq<string>, key: string, value: string, f: Flags)
    requires WellKeyed(key)
    ensures Set(Set(lines, key, value, f), key, value, f) == Set(lines, key, value, f)
  {
    if lines != [] {
      var emitted, next := Emit(lines[0], key, value, f), Next(lines[0], key, f);
      SetIsIdempotent(lines[1..], key, value, next);
      EmitIsStable(lines[0], key, value, f);
      SetConcat(emitted, Set(lines[1..], key, value, next), key, value, f);
    }
  }

  lemma EmitFrame(line: string, key: string, value: string, f: Flags)
    requires WellKeyed(key)
    ensures var emitted := Emit(line, key, value, f);
            && Others(emitted, key, f.inside) == Others([line], key, f.inside)
            && AllAre(Held(emitted, key, f.inside), Assign(key, value))
            && |Held(emitted, key, f.inside)| ==
                 |Held([line], key, f.inside)| + (if f.inside && IsEnd(line) && !f.written then 1 else 0)
  {
    AssignIsKeyLine(key, value);
    assert [line][1..] == [] && [Assign(key, value)][1..] == [] && [Assign(key, value), line][1..] == [line];
  }

  /** Frame: every line outside CUSTOM and every CUSTOM line of another key stays, in order. */
  lemma {:induction false} SetKeepsOthers(lines: seq<string>, key: string, value: string, f: Flags)
    requires WellKeyed(key)
    ensures Others(Set(lines, key, value, f), key, f.inside) == Others(lines, key, f.inside)
  {
    if lines != [] {
      var next := Next(lines[0], key, f);
      SetKeepsOthers(lines[1..], key, value, next);
      EmitFrame(lines[0], key, value, f);
      EmitIsStable(lines[0], key, value, f);
      OthersConcat(Emit(lines[0], key, value, f), Set(lines[1..], key, value, next), key, f);
      One(lines[0], key, value, f);
      OthersConcat([lines[0]], lines[1..], key, f);
      assert lines == [lines[0]] + lines[1..];
    }
  }

  /** Effect: the key's CUSTOM lines all read `key=value`. */
  lemma {:induction false} SetHolds(lines: seq<string>, key: string, value: string, f: Flags)
    requires WellKeyed(key)
    ensures AllAre(Held(Set(lines, key, value, f), key, f.inside), Assign(key, value))
  {
    if lines != [] {
      var next := Next(lines[0], key, f);
      SetHolds(lines[1..], key, value, next);
      EmitFrame(lines[0], key, value, f);
      EmitIsStable(lines[0], key, value, f);
      HeldConcat(Emit(lines[0], key, value, f), Set(lines[1..], key, value, next), key, f);
      assert Held(Set(lines, key, value, f), key, f.inside) ==
        Held(Emit(lines[0], key, value, f), key, f.inside) + Held(Set(lines[1..], key, value, next), key, next.inside);
    }
  }

  /** Every one of them is still there, at most one is added, and once written there is one. */
  lemma {:induction false} SetCounts(lines: seq<string>, key: string, value: string, f: Flags)
    requires WellKeyed(key)
    ensures var held, before := Held(Set(lines, key, value, f), key, f.inside), Held(lines, key, f.inside);
            && |before| <= |held| <= |before| + (if f.written then 0 else 1)
            && (After(lines, key, f).written && !f.written ==> |held| > 0)
  {
    hide KeyOf, WellKeyed, IsEnd, IsBegin, AllAre, Emit;
    if lines != [] {
      var next := Next(lines[0], key, f);
      SetCounts(lines[1..], key, value, next);
      EmitFrame(lines[0], key, value, f);
      EmitIsStable(lines[0], key, value, f);
      HeldConcat(Emit(lines[0], key, value, f), Set(lines[1..], key, value, next), key, f);
      assert [lines[0]][1..] == [];
    }
  }

  /** The key's lines are there afterwards exactly when the setter came to write one. */
  lemma {:induction false} HeldIffWritten(lines: seq<string>, key: string, value: string, f: Flags)
    requires WellKeyed(key) && !f.written
    ensures Held(Set(lines, key, value, f), key, f.inside) != [] <==> After(lines, key, f).written
  {
    SetCounts(lines, key, value, f);
    if !After(lines, key, f).written { NothingHeld(lines, key, value, f); }
  }

  lemma {:induction false} NothingHeld(lines: seq<string>, key: string, value: string, f: Flags)
    requires WellKeyed(key) && !After(lines, key, f).written
    ensures Held(Set(lines, key, value, f), key, f.inside) == []
  {
    hide KeyOf, WellKeyed, IsEnd, IsBegin, AllAre, Emit;
    if lines != [] {
      var next := Next(lines[0], key, f);
      NothingHeld(lines[1..], key, value, next);
      WrittenStays(lines[1..], key, next);
      EmitFrame(lines[0], key, value, f);
      EmitIsStable(lines[0], key, value, f);
      HeldConcat(Emit(lines[0], key, value, f), Set(lines[1..], key, value, next), key, f);
      assert [lines[0]][1..] == [];
    }
  }

  lemma {:induction false} WrittenStays(lines: seq<string>, key: string, f: Flags)
    ensures f.written ==> After(lines, key, f).written
  {
    if lines != [] { WrittenStays(lines[1..], key, Next(lines[0], key, f)); }
  }

  /** On a file whose boxes are closed, something is written. */
  lemma {:induction false} ClosedIsWritten(lines: seq<string>, key: string, f: Flags)
    requires !After(lines, key, f).inside && (f.inside || f.written || HasBox(lines))
    ensures After(lines, key, f).written
  {
    if lines != [] {
      if !f.inside && !f.written && !IsBegin(lines[0]) {
        var i :| 0 <= i < |lines| && IsBegin(lines[i]);
        assert lines[1..][i - 1] == lines[i];
      }
      ClosedIsWritten(lines[1..], key, Next(lines[0], key, f));
    }
  }

  // ----- what parse reads -----

  /** A comment line assigns nothing. */
  lemma CommentIsInactive(line: string)
    requires line != "" && line[0] == '#'
    ensures Active(line).None?
  {
    StripKeepsFirst(line);
  }

  lemma ValueOne(line: string, key: string)
    ensures Value([line], key) ==
              if Active(line).Some? && Active(line).value.0 == key then Some(Active(line).value.1) else None
  {
    assert [line][1..] == [];
  }

  lemma EmitValue(line: string, key: string, value: string, any: string, f: Flags)
    requires WellKeyed(key)
    ensures any != key ==> Value(Emit(line, key, value, f), any) == Value([line], any)
    ensures any == key && f.inside ==>
              Value(Emit(line, key, value, f), any) ==
                if Next(line, key, f).written && (IsEnd(line) ==> !f.written) && (IsEnd(line) || IsKeyLine(line, key))
                then Some(Unquote(Strip(value))) else None
  {
    AssignIsActive(key, value);
    ValueOne(line, any);
    ValueOne(Assign(key, value), any);
    ValueConcat([Assign(key, value)], [line], any);
    assert [Assign(key, value), line] == [Assign(key, value)] + [line];
    if Active(line).Some? { ActiveIsKeyLine(line); }
    if IsEnd(line) {
      MarkersAreComments(line);
      CommentIsInactive(line);
    }
  }

  /** What parse reads for any other key is unchanged. */
  lemma {:induction false} SetKeepsOtherValues(lines: seq<string>, key: string, value: string, other: string, f: Flags)
    requires WellKeyed(key) && other != key
    ensures Value(Set(lines, key, value, f), other) == Value(lines, other)
  {
    if lines != [] {
      var next := Next(lines[0], key, f);
      SetKeepsOtherValues(lines[1..], key, value, other, next);
      EmitValue(lines[0], key, value, other, f);
      ValueConcat(Emit(lines[0], key, value, f), Set(lines[1..], key, value, next), other);
      ValueConcat([lines[0]], lines[1..], other);
      assert lines == [lines[0]] + lines[1..];
    }
  }

  /** Parse then reads exactly what has the last word: the new value, unless a line outside CUSTOM follows it. */
  lemma {:induction false} SetIsRead(lines: seq<string>, key: string, value: string, f: Flags)
    requires WellKeyed(key)
    ensures Value(Set(lines, key, value, f), key) == Reading(LastWord(lines, key, f), value)
  {
    hide WellKeyed, Strip, Unquote, KeyOf, Active;
    if lines != [] {
      var next := Next(lines[0], key, f);
      SetIsRead(lines[1..], key, value, next);
      EmitValue(lines[0], key, value, key, f);
      ValueConcat(Emit(lines[0], key, value, f), Set(lines[1..], key, value, next), key);
    }
  }

  /** So the value set is read back iff the setter has the last word, or the line that has it says the same. */
  lemma SetIsReadBackExactly(lines: seq<string>, key: string, value: string)
    requires WellKeyed(key)
    ensures Value(SetLines(lines, key, value), key) == Some(Unquote(Strip(value))) <==>
            LastWord(lines, key, START) == Setter || LastWord(lines, key, START) == Outside(Unquote(Strip(value)))
  {
    hide WellKeyed, Strip, Unquote, LastWord;
    SetIsRead(lines, key, value, START);
  }

  lemma HeldOne(line: string, key: string, inside: bool)
    ensures Held([line], key, inside) == if inside && !IsEnd(line) && IsKeyLine(line, key) then [line] else []
  {
    assert [line][1..] == [];
  }

  lemma BoxIsOpened(begin: string, end: string, key: string, value: string)
    requires IsBegin(begin) && IsEnd(end)
    ensures Emit(begin, key, value, START) == [begin] && Next(begin, key, START) == Flags(true, false)
    ensures Emit(end, key, value, Flags(true, false)) == [Assign(key, value), end]
    ensures Next(end, key, Flags(true, false)) == Next(end, key, Flags(true, true)) == Flags(false, true)
  {
    hide IsBegin, IsEnd, IsKeyLine, Assign;
  }

  lemma MarkersAreMarkers()
    ensures IsBegin(CUSTOM_BEGIN) && IsEnd(CUSTOM_END)
  {
  }

  /** A box followed by another assignment of the key: the setting is written and not read. */
  lemma ShadowedIsNotRead(key: string, value: string, other: string)
    requires WellKeyed(key) && Unquote(Strip(other)) != Unquote(Strip(value))
    ensures var lines := [CUSTOM_BEGIN, CUSTOM_END, Assign(key, other)];
            && Held(SetLines(lines, key, value), key, false) == [Assign(key, value)]
            && Value(SetLines(lines, key, value), key) == Some(Unquote(Strip(other)))
  {
    hide WellKeyed, Strip, Unquote, KeyOf, IsBegin, IsEnd, Value, Set, Emit, Next, Held, After, Assign;
    var begin, end, mine, last := [CUSTOM_BEGIN], [CUSTOM_END], Assign(key, value), Assign(key, other);
    var inside, done := Flags(true, false), Flags(false, true);
    var lines := [CUSTOM_BEGIN, CUSTOM_END, last];
    assert lines == begin + end + [last];
    MarkersAreMarkers();
    BoxIsOpened(CUSTOM_BEGIN, CUSTOM_END, key, value);
    One(CUSTOM_BEGIN, key, value, START);
    One(CUSTOM_END, key, value, inside);
    One(last, key, value, done);
    assert Emit(last, key, value, done) == [last] by { assert !done.inside; EmitOutside(last, key, value, done); }
    SetConcat(begin, end, key, value, START);
    SetConcat(begin + end, [last], key, value, START);
    assert SetLines(lines, key, value) == begin + [mine, CUSTOM_END] + [last];
    AssignIsActive(key, other);
    ValueOne(last, key);
    ValueConcat(begin + [mine, CUSTOM_END], [last], key);
    AssignIsKeyLine(key, value);
    HeldOne(CUSTOM_BEGIN, key, false);
    HeldOne(mine, key, true);
    HeldOne(CUSTOM_END, key, true);
    HeldOne(last, key, false);
    One(mine, key, value, inside);
    assert Next(mine, key, inside) == Flags(true, true) by { KeyIsWritten(mine, key, inside); }
    One(CUSTOM_END, key, value, Flags(true, true));
    SetConcat(begin, [mine], key, value, START);
    SetConcat(begin + [mine], end, key, value, START);
    HeldConcat(begin, [mine], key, START);
    HeldConcat(begin + [mine], end, key, START);
    HeldConcat(begin + [mine] + end, [last], key, START);
    assert Held(begin + [mine], key, false) == [mine];
    assert begin + [mine] + end + [last] == begin + [mine, CUSTOM_END] + [last];
  }

  lemma EmitOutside(line: string, key: string, value: string, f: Flags)
    requires !f.inside
    ensures Emit(line, key, value, f) == [line]
  {
  }

  lemma KeyIsWritten(line: string, key: string, f: Flags)
    requires IsKeyLine(line, key) && !IsEnd(line) && f.inside
    ensures Next(line, key, f) == Flags(true, true)
  {
    hide IsEnd, IsKeyLine;
  }

  /** A value read for `key` does not depend on a setting of another key made before. */
  lemma {:induction false} SetIgnoresOtherSet(
    lines: seq<string>, key: string, value: string, other: string, otherValue: string, f: Flags, g: Flags)
    requires WellKeyed(key) && WellKeyed(other) && key != other && f.inside == g.inside
    ensures Value(Set(Set(lines, other, otherValue, g), key, value, f), key) == Value(Set(lines, key, value, f), key)
  {
    if lines != [] {
      var line, rest := lines[0], lines[1..];
      var emitted, next := Emit(line, other, otherValue, g), Next(line, other, g);
      EmittedAlike(line, key, value, other, otherValue, f, g);
      SetConcat(emitted, Set(rest, other, otherValue, next), key, value, f);
      SetIgnoresOtherSet(rest, key, value, other, otherValue, Next(line, key, f), next);
      ValueConcat(Emit(line, key, value, f), Set(rest, key, value, Next(line, key, f)), key);
      ValueConcat(Set(emitted, key, value, f),
        Set(Set(rest, other, otherValue, next), key, value, Next(line, key, f)), key);
    }
  }

  lemma EmittedAlike(line: string, key: string, value: string, other: string, otherValue: string, f: Flags, g: Flags)
    requires WellKeyed(key) && WellKeyed(other) && key != other && f.inside == g.inside
    ensures var emitted := Emit(line, other, otherValue, g);
            && After(emitted, key, f) == Next(line, key, f)
            && Value(Set(emitted, key, value, f), key) == Value(Emit(line, key, value, f), key)
  {
    var assign := Assign(other, otherValue);
    AssignIsKeyLine(other, otherValue);
    AssignIsActive(other, otherValue);
    ValueOne(assign, key);
    ValueOne(line, key);
    One(line, key, value, f);
    One(assign, key, value, f);
    if Active(line).Some? { ActiveIsKeyLine(line); }
    if f.inside && IsEnd(line) && !g.written {
      assert [assign, line] == [assign] + [line];
      SetConcat([assign], [line], key, value, f);
      ValueConcat([assign], Emit(line, key, value, f), key);
    }
  }

  /** Settings of distinct keys commute up to what parse reads. */
  lemma SetsCommute(lines: seq<string>, key: string, value: string, other: string, otherValue: string, any: string)
    requires WellKeyed(key) && WellKeyed(other) && key != other
    ensures Value(SetLines(SetLines(lines, key, value), other, otherValue), any)
         == Value(SetLines(SetLines(lines, other, otherValue), key, value), any)
  {
    var mine, yours := SetLines(lines, key, value), SetLines(lines, other, otherValue);
    if any == key {
      SetKeepsOtherValues(mine, other, otherValue, key, START);
      SetIgnoresOtherSet(lines, key, value, other, otherValue, START, START);
    } else if any == other {
      SetKeepsOtherValues(yours, key, value, other, START);
      SetIgnoresOtherSet(lines, other, otherValue, key, value, START, START);
    } else {
      SetKeepsOtherValues(lines, key, value, any, START);
      SetKeepsOtherValues(lines, other, otherValue, any, START);
      SetKeepsOtherValues(mine, other, otherValue, any, START);
      SetKeepsOtherValues(yours, key, value, any, START);
    }
  }

  // ----- what settings leave for each other -----

  lemma {:induction false} LastWordConcat(a: seq<string>, b: seq<string>, key: string, f: Flags)
    ensures LastWord(a + b, key, f) ==
            if LastWord(b, key, After(a, key, f)) != Nobody then LastWord(b, key, After(a, key, f))
              else LastWord(a, key, f)
  {
    hide KeyOf, IsEnd, IsBegin, Value;
    if a == [] {
      assert a + b == b;
    } else {
      assert (a + b)[1..] == a[1..] + b;
      LastWordConcat(a[1..], b, key, Next(a[0], key, f));
    }
  }

  lemma OneWord(line: string, key: string, f: Flags)
    ensures LastWord([line], key, f) ==
            if f.inside then
              if (IsEnd(line) && !f.written) || (!IsEnd(line) && IsKeyLine(line, key)) then Setter else Nobody
            else if Value([line], key).Some? then Outside(Value([line], key).value) else Nobody
  {
    assert [line][1..] == [];
  }

  lemma EmittedWord(line: string, key: string, value: string, f: Flags)
    requires WellKeyed(key)
    ensures LastWord(Emit(line, key, value, f), key, f) == LastWord([line], key, f)
  {
    hide KeyOf, Value, WellKeyed;
    AssignIsKeyLine(key, value);
    OneWord(line, key, f);
    OneWord(Assign(key, value), key, f);
    OneWord(line, key, Next(Assign(key, value), key, f));
    LastWordConcat([Assign(key, value)], [line], key, f);
    One(Assign(key, value), key, value, f);
    assert [Assign(key, value), line] == [Assign(key, value)] + [line];
  }

  /** A setting does not change whose line has the last word on its key. */
  lemma {:induction false} SetKeepsLastWord(lines: seq<string>, key: string, value: string, f: Flags)
    requires WellKeyed(key)
    ensures LastWord(Set(lines, key, value, f), key, f) == LastWord(lines, key, f)
  {
    hide KeyOf, Value, WellKeyed, IsEnd, IsBegin;
    if lines != [] {
      var next := Next(lines[0], key, f);
      SetKeepsLastWord(lines[1..], key, value, next);
      EmittedWord(lines[0], key, value, f);
      EmitIsStable(lines[0], key, value, f);
      LastWordConcat(Emit(lines[0], key, value, f), Set(lines[1..], key, value, next), key, f);
      LastWordConcat([lines[0]], lines[1..], key, f);
      One(lines[0], key, value, f);
      assert lines == [lines[0]] + lines[1..];
    }
  }

  lemma OtherKeyLine(key: string, value: string, other: string)
    requires WellKeyed(key) && other != key
    ensures !IsKeyLine(Assign(key, value), other)
  {
    AssignIsKeyLine(key, value);
  }

  lemma OtherEmitted(line: string, key: string, other: string, value: string, f: Flags, g: Flags)
    requires WellKeyed(other) && other != key && f.inside == g.inside
    ensures var emitted := Emit(line, other, value, g);
            && LastWord(emitted, key, f) == LastWord([line], key, f) && After(emitted, key, f) == Next(line, key, f)
            && Held(emitted, key, g.inside) == Held([line], key, g.inside)
  {
    hide KeyOf, Value, WellKeyed;
    var assign := Assign(other, value);
    OtherKeyLine(other, value, key);
    AssignIsKeyLine(other, value);
    OneWord(line, key, f);
    OneWord(assign, key, f);
    LastWordConcat([assign], [line], key, f);
    HeldConcat([assign], [line], key, f);
    One(assign, key, value, f);
    One(line, key, value, f);
    assert [assign, line] == [assign] + [line] && [assign][1..] == [] && [line][1..] == [];
  }

  /** A setting of another key leaves the key's lines, and who has the last word on it, alone. */
  lemma {:induction false} OtherSetIsInvisible(
    lines: seq<string>, key: string, other: string, value: string, f: Flags, g: Flags)
    requires WellKeyed(other) && other != key && f.inside == g.inside
    ensures LastWord(Set(lines, other, value, g), key, f) == LastWord(lines, key, f)
    ensures Held(Set(lines, other, value, g), key, g.inside) == Held(lines, key, g.inside)
  {
    hide KeyOf, Value, WellKeyed, IsEnd, IsBegin, Emit;
    if lines != [] {
      var emitted, next := Emit(lines[0], other, value, g), Next(lines[0], other, g);
      var rest := Set(lines[1..], other, value, next);
      OtherSetIsInvisible(lines[1..], key, other, value, Next(lines[0], key, f), next);
      OtherEmitted(lines[0], key, other, value, f, g);
      LastWordConcat(emitted, rest, key, f);
      LastWordConcat([lines[0]], lines[1..], key, f);
      HeldConcat(emitted, rest, key, f);
      HeldConcat([lines[0]], lines[1..], key, f);
      One(lines[0], key, value, f);
      assert lines == [lines[0]] + lines[1..];
    }
  }

  /** The first line that opens a CUSTOM box is never touched. */
  lemma {:induction false} SetKeepsBox(lines: seq<string>, key: string, value: string, f: Flags)
    requires HasBox(lines) && !f.inside
    ensures HasBox(Set(lines, key, value, f))
  {
    hide KeyOf, IsEnd, IsBegin;
    var out := Set(lines, key, value, f);
    assert out[0] == lines[0];
    if !IsBegin(lines[0]) {
      var i :| 0 <= i < |lines| && IsBegin(lines[i]);
      assert lines[1..][i - 1] == lines[i];
      var rest := Set(lines[1..], key, value, Next(lines[0], key, f));
      SetKeepsBox(lines[1..], key, value, Next(lines[0], key, f));
      var k :| 0 <= k < |rest| && IsBegin(rest[k]);
      assert out[k + 1] == rest[k];
    }
  }
}
