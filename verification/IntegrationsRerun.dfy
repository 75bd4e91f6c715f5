/** A second run that may switch off or prompt again: when it repeats the first, exactly. */
module IntegrationsRerun {
  import opened Options
  import opened Text
  import opened EnvLines
  import opened EnvSetter
  import opened EnvWriter
  import opened EnvFile
  import opened Integrations
  import opened IntegrationsFixpoint

  // ----- settings on a written file -----

  /** The owned lines with every line of the key, active or commented out, rewritten. */
  function Replaced(custom: seq<string>, key: string, value: string): seq<string> {
    if custom == [] then []
    else [if IsKeyLine(custom[0], key) then Assign(key, value) else custom[0]] + Replaced(custom[1..], key, value)
  }

  /** The owned lines once a key is set in them. */
  function Put(custom: seq<string>, key: string, value: string): seq<string> {
    Replaced(custom, key, value) + (if HasKey(custom, key) then [] else [Assign(key, value)])
  }

  function PutAll(custom: seq<string>, updates: Pairs): seq<string>
    decreases |updates|
  {
    if updates == [] then custom else PutAll(Put(custom, updates[0].0, updates[0].1), updates[1..])
  }

  /** The value a list of settings ends with for a key. */
  function LastOf(updates: Pairs, key: string): Option<string> {
    if updates == [] then None
    else if LastOf(updates[1..], key).Some? then LastOf(updates[1..], key)
    else if updates[0].0 == key then Some(updates[0].1) else None
  }

  /** Lines that come back as they are from a CUSTOM box. */
  predicate IsOwned(custom: seq<string>) {
    Tight(custom) && AllNoBreak(custom) && forall i :: 0 <= i < |custom| ==> !IsBegin(custom[i]) && !IsEnd(custom[i])
  }

  /** Every line of the key is the assignment itself. */
  predicate Pinned(lines: seq<string>, key: string, value: string) {
    forall i :: 0 <= i < |lines| && IsKeyLine(lines[i], key) ==> lines[i] == Assign(key, value)
  }

  lemma HasKeyTail(lines: seq<string>, key: string)
    requires lines != []
    ensures HasKey(lines, key) <==> IsKeyLine(lines[0], key) || HasKey(lines[1..], key)
  {
    hide IsKeyLine;
    if HasKey(lines, key) && !IsKeyLine(lines[0], key) {
      var i :| 0 <= i < |lines| && IsKeyLine(lines[i], key);
      assert lines[1..][i - 1] == lines[i];
    }
    if HasKey(lines[1..], key) {
      var i :| 0 <= i < |lines[1..]| && IsKeyLine(lines[1..][i], key);
      assert lines[i + 1] == lines[1..][i];
    }
  }

  lemma {:induction false} SetOutside(lines: seq<string>, key: string, value: string)
    requires forall i :: 0 <= i < |lines| ==> !IsBegin(lines[i])
    ensures Set(lines, key, value, START) == lines && After(lines, key, START) == START
  {
    hide IsBegin, KeyOf;
    if lines != [] {
      assert forall i :: 0 <= i < |lines[1..]| ==> lines[1..][i] == lines[i + 1];
      SetOutside(lines[1..], key, value);
    }
  }

  lemma {:induction false} SetInside(custom: seq<string>, key: string, value: string, written: bool)
    requires forall i :: 0 <= i < |custom| ==> !IsEnd(custom[i])
    ensures Set(custom, key, value, Flags(true, written)) == Replaced(custom, key, value)
    ensures After(custom, key, Flags(true, written)) == Flags(true, written || HasKey(custom, key))
  {
    hide IsEnd, IsKeyLine;
    if custom != [] {
      assert forall i :: 0 <= i < |custom[1..]| ==> custom[1..][i] == custom[i + 1];
      SetInside(custom[1..], key, value, written || IsKeyLine(custom[0], key));
      HasKeyTail(custom, key);
    }
  }

  /** A setting on the lines of a written file is a setting on its owned lines. */
  lemma SetWritten(generated: Pairs, custom: seq<string>, key: string, value: string)
    requires CleanHeader(HEADER) && CleanPairs(generated) && IsOwned(custom)
    ensures SetLines(FileLines(HEADER, generated, custom), key, value) ==
            FileLines(HEADER, generated, Put(custom, key, value))
  {
    hide IsEnd, IsBegin, IsKeyLine, Set, After, CleanHeader, CleanPairs, Replaced, HasKey;
    var b := Before(HEADER, generated);
    var outside := b[..|b| - 1];
    BeforeHasNoBegin(HEADER, generated);
    SetOutside(outside, key, value);
    MarkersDiffer();
    One(CUSTOM_BEGIN, key, value, START);
    assert b == outside + [CUSTOM_BEGIN];
    SetConcat(outside, [CUSTOM_BEGIN], key, value, START);
    SetInside(custom, key, value, false);
    SetConcat(b, custom, key, value, START);
    One(CUSTOM_END, key, value, Flags(true, HasKey(custom, key)));
    SetConcat(b + custom, [CUSTOM_END], key, value, START);
  }

  lemma PutOwned(custom: seq<string>, key: string, value: string)
    requires IsOwned(custom) && WellKeyed(key) && NoBreak(value)
    ensures IsOwned(Put(custom, key, value))
  {
    hide IsEnd, IsBegin, IsKeyLine, IsBlank, WellKeyed;
    AssignIsKeyLine(key, value);
    assert NoBreak(Assign(key, value)) by { AssignBreakFree(key, value); }
    ReplacedAt(custom, key, value);
  }

  lemma AssignBreakFree(key: string, value: string)
    requires WellKeyed(key) && NoBreak(value)
    ensures NoBreak(Assign(key, value))
  {
    ConcatNoBreak(key, "=");
    ConcatNoBreak(key + "=", value);
  }

  lemma {:induction false} ReplacedAt(custom: seq<string>, key: string, value: string)
    ensures |Replaced(custom, key, value)| == |custom|
    ensures forall i :: 0 <= i < |custom| ==>
              Replaced(custom, key, value)[i] == if IsKeyLine(custom[i], key) then Assign(key, value) else custom[i]
  {
    hide IsKeyLine;
    if custom != [] { ReplacedAt(custom[1..], key, value); }
  }

  lemma SetWrittenText(generated: Pairs, custom: seq<string>, key: string, value: string)
    requires CleanHeader(HEADER) && CleanPairs(generated) && IsOwned(custom) && WellKeyed(key) && NoBreak(value)
    ensures SetText(FileText(HEADER, generated, custom), key, value) ==
            FileText(HEADER, generated, Put(custom, key, value))
  {
    hide IsEnd, IsBegin, IsKeyLine, Put, CleanPairs, Tight, Join, SplitLines, WellKeyed, SetLines;
    var lines := FileLines(HEADER, generated, custom);
    FileTextReads(HEADER, generated, custom);
    SetWritten(generated, custom, key, value);
    assert CUSTOM_END != "";
    JoinEmptyLast(FileLines(HEADER, generated, Put(custom, key, value)));
  }

  lemma {:induction false} SetAllWritten(generated: Pairs, custom: seq<string>, updates: Pairs)
    requires CleanHeader(HEADER) && CleanPairs(generated) && IsOwned(custom) && CleanPairs(updates)
    ensures SetAll(FileText(HEADER, generated, custom), updates) ==
            (FileText(HEADER, generated, PutAll(custom, updates)), true)
    ensures IsOwned(PutAll(custom, updates))
    decreases |updates|
  {
    hide IsOwned, FileText, Put, WellKeyed, SplitLines, SetText, HasBox;
    if updates != [] {
      var (key, value) := updates[0];
      SetWrittenText(generated, custom, key, value);
      PutOwned(custom, key, value);
      OwnedHasBox(generated, custom);
      SetAllWritten(generated, Put(custom, key, value), updates[1..]);
    }
  }

  lemma OwnedHasBox(generated: Pairs, custom: seq<string>)
    requires CleanHeader(HEADER) && CleanPairs(generated) && IsOwned(custom)
    ensures HasBox(SplitLines(FileText(HEADER, generated, custom)))
  {
    hide SplitLines, FileText, FileLines, HasBox, CleanPairs, IsBegin, IsEnd;
    FileTextReads(HEADER, generated, custom);
    WrittenHasBox(HEADER, generated, custom);
  }

  // ----- what the owned lines then say -----

  lemma {:induction false} ReplacedReads(custom: seq<string>, key: string, value: string, any: string)
    requires WellKeyed(key)
    ensures Value(Replaced(custom, key, value), any) ==
            if any != key then Value(custom, any) else if HasKey(custom, key) then Some(Unquote(Strip(value))) else None
  {
    hide KeyOf, Strip, Unquote, WellKeyed, Active, HasEq;
    if custom != [] {
      ReplacedReads(custom[1..], key, value, any);
      HasKeyTail(custom, key);
      AssignIsActive(key, value);
      if Active(custom[0]).Some? { ActiveIsKeyLine(custom[0]); }
    }
  }

  lemma PutReads(custom: seq<string>, key: string, value: string, any: string)
    requires WellKeyed(key)
    ensures Value(Put(custom, key, value), any) ==
            if any == key then Some(Unquote(Strip(value))) else Value(custom, any)
  {
    hide Value, KeyOf, Strip, Unquote, WellKeyed, Active, Replaced, HasKey;
    ReplacedReads(custom, key, value, any);
    AssignIsActive(key, value);
    ValueOne(Assign(key, value), any);
    ValueConcat(Replaced(custom, key, value), [Assign(key, value)], any);
    assert Replaced(custom, key, value) + [] == Replaced(custom, key, value);
  }

  lemma {:induction false} PutAllReads(custom: seq<string>, updates: Pairs, any: string)
    requires CleanPairs(updates)
    ensures Value(PutAll(custom, updates), any) ==
            if LastOf(updates, any).Some? then Some(Unquote(Strip(LastOf(updates, any).value))) else Value(custom, any)
    decreases |updates|
  {
    hide Value, Strip, Unquote, WellKeyed, Put;
    if updates != [] {
      PutReads(custom, updates[0].0, updates[0].1, any);
      PutAllReads(Put(custom, updates[0].0, updates[0].1), updates[1..], any);
    }
  }

  lemma PutKeeps(custom: seq<string>, key: string, value: string, other: string)
    requires WellKeyed(key)
    ensures HasKey(custom, other) || other == key ==> HasKey(Put(custom, key, value), other)
    ensures Pinned(Put(custom, key, value), key, value)
  {
    hide KeyOf, WellKeyed, HasEq, Find;
    AssignIsKeyLine(key, value);
    ReplacedAt(custom, key, value);
    var put := Put(custom, key, value);
    if HasKey(custom, key) {
      var i :| 0 <= i < |custom| && IsKeyLine(custom[i], key);
      assert put[i] == Assign(key, value);
    } else {
      assert put[|custom|] == Assign(key, value);
    }
    if other != key && HasKey(custom, other) {
      var i :| 0 <= i < |custom| && IsKeyLine(custom[i], other);
      assert put[i] == custom[i];
    }
  }

  lemma PutKeepsPins(custom: seq<string>, key: string, value: string, other: string, pin: string)
    requires WellKeyed(key) && other != key && Pinned(custom, other, pin)
    ensures Pinned(Put(custom, key, value), other, pin)
  {
    hide KeyOf, WellKeyed, HasEq, HasKey;
    OtherKeyLine(key, value, other);
    ReplacedAt(custom, key, value);
  }

  /** The last setting of a key pins its lines. */
  lemma {:induction false} PutAllPins(custom: seq<string>, updates: Pairs, key: string, pin: string)
    requires CleanPairs(updates)
    requires LastOf(updates, key) == Some(pin) || (LastOf(updates, key).None? && Pinned(custom, key, pin))
    ensures Pinned(PutAll(custom, updates), key, pin)
    decreases |updates|
  {
    hide Pinned, WellKeyed, Put;
    if updates != [] {
      var (name, value) := updates[0];
      PutKeeps(custom, name, value, key);
      if name != key && LastOf(updates[1..], key).None? { PutKeepsPins(custom, name, value, key, pin); }
      PutAllPins(Put(custom, name, value), updates[1..], key, pin);
    }
  }

  lemma {:induction false} PutAllKeepsKey(custom: seq<string>, updates: Pairs, key: string)
    requires CleanPairs(updates) && HasKey(custom, key)
    ensures HasKey(PutAll(custom, updates), key)
    decreases |updates|
  {
    hide HasKey, WellKeyed, Put;
    if updates != [] {
      PutKeeps(custom, updates[0].0, updates[0].1, key);
      PutAllKeepsKey(Put(custom, updates[0].0, updates[0].1), updates[1..], key);
    }
  }

  lemma {:induction false} PinnedIsReplaced(custom: seq<string>, key: string, value: string)
    requires Pinned(custom, key, value)
    ensures Replaced(custom, key, value) == custom
  {
    hide IsKeyLine;
    ReplacedAt(custom, key, value);
  }

  /** Settings that are already there change nothing. */
  lemma {:induction false} PinnedIsPut(custom: seq<string>, updates: Pairs)
    requires forall k :: 0 <= k < |updates| ==>
             HasKey(custom, updates[k].0) && Pinned(custom, updates[k].0, updates[k].1)
    ensures PutAll(custom, updates) == custom
    decreases |updates|
  {
    hide HasKey, Pinned, Replaced;
    if updates != [] {
      assert HasKey(custom, updates[0].0);
      PinnedIsReplaced(custom, updates[0].0, updates[0].1);
      assert Put(custom, updates[0].0, updates[0].1) == custom;
      assert forall k :: 0 <= k < |updates[1..]| ==> updates[1..][k] == updates[k + 1];
      PinnedIsPut(custom, updates[1..]);
    }
  }

  // ----- settings on any file with a box -----

  lemma KeptSays(lines: seq<string>, key: string)
    ensures LastWord(Kept(lines), key, START) == LastWord(lines, key, START)
    ensures Held(Kept(lines), key, false) == Held(lines, key, false)
  {
    hide LastWord, Held, KeyOf, IsEnd, IsBegin;
    if Kept(lines) != lines {
      assert lines == Kept(lines) + [""];
      NoWordLast(Kept(lines), key, START);
      HeldConcat(Kept(lines), [""], key, START);
      NothingInEmptyLine(key, After(Kept(lines), key, START).inside);
    }
  }

  lemma NothingInEmptyLine(key: string, inside: bool)
    ensures Held([""], key, inside) == []
  {
    assert [""][1..] == [];
  }

  /** One setting: whose word is last stays, and only the key set changes hands. */
  lemma SetFacts(text: string, key: string, value: string, any: string)
    requires HasBox(SplitLines(text)) && WellKeyed(key) && NoBreak(value)
    ensures var before, after := SplitLines(text), SplitLines(SetText(text, key, value));
            && HasBox(after) && LastWord(after, any, START) == LastWord(before, any, START)
            && Value(after, any) ==
                 (if any == key then Reading(LastWord(before, any, START), value) else Value(before, any))
            && (if any == key then AllAre(Held(after, any, false), Assign(any, value))
                else Held(after, any, false) == Held(before, any, false))
  {
    hide Set, Held, Value, SplitLines, SetText, WellKeyed, LastWord, HasBox, Reading, After, AllAre;
    var kept := Kept(SplitLines(text));
    SettingReadsBack(text, key, value);
    SetKeepsBox(kept, key, value, START);
    KeptSays(SplitLines(text), any);
    KeptReadsAlike(SplitLines(text), any);
    if any == key {
      SetKeepsLastWord(kept, key, value, START);
      SetIsRead(kept, key, value, START);
      SetHolds(kept, key, value, START);
    } else {
      OtherSetIsInvisible(kept, any, key, value, START, START);
      SetKeepsOtherValues(kept, key, value, any, START);
    }
  }

  /** Many settings: the last one of a key decides what its lines hold, and whose word is last what is read. */
  lemma {:induction false} SetAllFacts(text: string, updates: Pairs, any: string)
    requires HasBox(SplitLines(text)) && CleanPairs(updates)
    ensures SetAll(text, updates).1
    ensures var before, after := SplitLines(text), SplitLines(SetAll(text, updates).0);
            && HasBox(after) && LastWord(after, any, START) == LastWord(before, any, START)
            && match LastOf(updates, any)
               case Some(last) =>
                 AllAre(Held(after, any, false), Assign(any, last)) &&
                   Value(after, any) == Reading(LastWord(before, any, START), last)
               case None =>
                 Held(after, any, false) == Held(before, any, false) && Value(after, any) == Value(before, any)
    decreases |updates|
  {
    hide Held, Value, SplitLines, SetText, WellKeyed, LastWord, HasBox, Reading;
    if updates != [] {
      SetFacts(text, updates[0].0, updates[0].1, any);
      SetAllFacts(SetText(text, updates[0].0, updates[0].1), updates[1..], any);
    }
  }

  lemma MarkersExclude(line: string)
    ensures !(IsBegin(line) && IsEnd(line))
  {
    assert CUSTOM_BEGIN[2] == '>' && CUSTOM_END[2] == '<';
  }

  lemma {:induction false} CustomLinesAreHeld(lines: seq<string>, key: string, inside: bool)
    ensures forall i :: 0 <= i < |CustomLines(lines, inside)| && IsKeyLine(CustomLines(lines, inside)[i], key) ==>
              CustomLines(lines, inside)[i] in Held(lines, key, inside)
  {
    hide IsKeyLine, IsBegin, IsEnd;
    if lines != [] {
      MarkersExclude(lines[0]);
      CustomLinesAreHeld(lines[1..], key, if inside then !IsEnd(lines[0]) else IsBegin(lines[0]));
    }
  }

  lemma HeldPinsBlock(lines: seq<string>, key: string, value: string)
    requires HasBox(lines) && AllAre(Held(lines, key, false), Assign(key, value))
    ensures Pinned(CustomBlock(lines), key, value)
  {
    hide IsKeyLine, HasBox, Held, CustomLines, Trimmed;
    CustomLinesAreHeld(lines, key, false);
    TrimmedIsTight(CustomLines(lines, false));
  }

  // ----- the settings of a run -----

  /** Each answer is one line, as a prompt returns it. */
  predicate OneLine(a: Answers) {
    NoBreak(a.usersKey) && NoBreak(a.ordersKey) && NoBreak(a.publishable) && NoBreak(a.geoapifyKey)
  }

  /** The box already says what the switches of the run would write. */
  predicate PinsOffs(block: seq<string>, i: Inputs) {
    && (i.stripeOff ==> Pinned(block, STRIPE_FLAG, "false"))
    && (i.geoapifyOff ==> Pinned(block, GEOAPIFY_FLAG, "false"))
  }

  lemma OffsAreClean(i: Inputs)
    ensures CleanPairs(Offs(i))
  {
    hide WellKeyed;
    FlagNames();
  }

  lemma UpdatesAreClean(lines: seq<string>, a: Answers)
    requires OneLine(a)
    ensures CleanPairs(Updates(lines, a))
  {
    hide WellKeyed, Decided, Strip;
    FlagNames();
    KeyNames();
    StripBreakFree(a.usersKey);
    StripBreakFree(a.ordersKey);
    StripBreakFree(a.publishable);
    StripBreakFree(a.geoapifyKey);
  }

  lemma FlagsDiffer()
    ensures STRIPE_FLAG != GEOAPIFY_FLAG
    ensures STRIPE_FLAG !in [USERS_KEY, ORDERS_KEY, PUBLISHABLE_KEY, GEOAPIFY_KEY]
    ensures GEOAPIFY_FLAG !in [USERS_KEY, ORDERS_KEY, PUBLISHABLE_KEY, GEOAPIFY_KEY]
    ensures STRIPE_FLAG !in AUTO_KEYS && GEOAPIFY_FLAG !in AUTO_KEYS
  {
    KeysDiffer();
    assert DEFAULTS[0].0 == STRIPE_FLAG && DEFAULTS[1].0 == USERS_KEY && DEFAULTS[2].0 == ORDERS_KEY;
    assert DEFAULTS[3].0 == PUBLISHABLE_KEY && DEFAULTS[5].0 == GEOAPIFY_FLAG && DEFAULTS[6].0 == GEOAPIFY_KEY;
  }

  lemma {:induction false} LastOfConcat(a: Pairs, b: Pairs, key: string)
    ensures LastOf(a + b, key) == if LastOf(b, key).Some? then LastOf(b, key) else LastOf(a, key)
  {
    if a == [] {
      assert a + b == b;
    } else {
      assert (a + b)[1..] == a[1..] + b;
      LastOfConcat(a[1..], b, key);
    }
  }

  predicate IsOff(i: Inputs, flag: string) {
    (flag == STRIPE_FLAG && i.stripeOff) || (flag == GEOAPIFY_FLAG && i.geoapifyOff)
  }

  lemma OffsSay(i: Inputs, flag: string)
    requires flag == STRIPE_FLAG || flag == GEOAPIFY_FLAG
    ensures LastOf(Offs(i), flag) ==
            if IsOff(i, flag) then Some("false") else None
  {
    FlagsDiffer();
    var a := if i.stripeOff then [(STRIPE_FLAG, "false")] else [];
    var b := if i.geoapifyOff then [(GEOAPIFY_FLAG, "false")] else [];
    LastOfConcat(a, b, flag);
    assert a != [] ==> a[1..] == [];
    assert b != [] ==> b[1..] == [];
  }

  /** A prompt asks about an undecided flag only, and its answer decides it. */
  lemma UpdatesSay(lines: seq<string>, a: Answers, flag: string)
    requires flag == STRIPE_FLAG || flag == GEOAPIFY_FLAG
    ensures LastOf(Updates(lines, a), flag) ==
            if Decided(lines, flag) then None
            else if (if flag == STRIPE_FLAG then a.stripe else a.geoapify) then Some("true") else Some("false")
  {
    hide Decided, Strip;
    FlagsDiffer();
    var s: Pairs := if Decided(lines, STRIPE_FLAG) then [] else StripeAnswers(a);
    var g: Pairs := if Decided(lines, GEOAPIFY_FLAG) then [] else GeoapifyAnswers(a);
    assert Updates(lines, a) == s + g;
    LastOfConcat(s, g, flag);
    StripeAnswersSay(a, flag);
    GeoapifyAnswersSay(a, flag);
  }

  lemma {:induction false} OnlyFirst(updates: Pairs, key: string)
    requires updates != [] && forall k :: 0 < k < |updates| ==> updates[k].0 != key
    ensures LastOf(updates, key) == if updates[0].0 == key then Some(updates[0].1) else None
  {
    if |updates| > 1 {
      assert forall k :: 0 <= k < |updates[1..]| ==> updates[1..][k] == updates[k + 1];
      OnlyFirst(updates[1..], key);
      assert updates[1..][0] == updates[1];
    }
  }

  lemma StripeAnswersSay(a: Answers, flag: string)
    requires flag == STRIPE_FLAG || flag == GEOAPIFY_FLAG
    ensures LastOf(StripeAnswers(a), flag) ==
            if flag == STRIPE_FLAG then Some(if a.stripe then "true" else "false") else None
  {
    hide Strip, LastOf;
    FlagsDiffer();
    OnlyFirst(StripeAnswers(a), flag);
  }

  lemma GeoapifyAnswersSay(a: Answers, flag: string)
    requires flag == STRIPE_FLAG || flag == GEOAPIFY_FLAG
    ensures LastOf(GeoapifyAnswers(a), flag) ==
            if flag == GEOAPIFY_FLAG then Some(if a.geoapify then "true" else "false") else None
  {
    hide Strip, LastOf;
    FlagsDiffer();
    OnlyFirst(GeoapifyAnswers(a), flag);
  }

  // ----- a second run that switches off or prompts -----

  /** The same run with nothing switched off and no prompt. */
  function Hushed(i: Inputs): Inputs {
    i.(promptAllowed := false, stripeOff := false, geoapifyOff := false)
  }

  /** On a decided file whose switches change nothing, a run does what the quiet one does. */
  lemma UnsetRun(text: string, tfvars: Option<TfVars>, i: Inputs)
    requires SetAll(text, Offs(i)) == (text, true) && Undecided(SplitLines(text)) == []
    ensures RunOf(Some(text), tfvars, i) == RunOf(Some(text), tfvars, Hushed(i))
  {
    hide SetAll, Undecided, SplitLines, Offs, Updates, Problems, CurrentAuto, RegeneratedAuto, FirstEmpty, FileText,
      TfVarsOf;
    QuietOffs(text, i);
  }

  lemma QuietOffs(text: string, i: Inputs)
    ensures SetAll(text, Offs(Hushed(i))) == (text, true)
  {
  }

  lemma {:induction false} SeedingKeepsPins(custom: seq<string>, defaults: Pairs, key: string, pin: string)
    requires HasKey(custom, key) && Pinned(custom, key, pin) && CleanPairs(defaults)
    ensures Pinned(Seeded(custom, defaults), key, pin)
    decreases |defaults|
  {
    hide KeyOf, HasEq, WellKeyed, HasKey, Assign;
    if defaults != [] {
      var (name, value) := defaults[0];
      assert WellKeyed(name);
      HasKeyAppend(custom, name, value, key);
      if !HasKey(custom, name) {
        OtherKeyLine(name, value, key);
        assert Pinned(custom + [Assign(name, value)], key, pin);
      }
      SeedingKeepsPins(SeedOne(custom, name, value), defaults[1..], key, pin);
    }
  }

  lemma DecidedHasKey(block: seq<string>, flag: string)
    requires Decided(block, flag)
    ensures HasKey(block, flag)
  {
    hide Value, HasKey;
    if !HasKey(block, flag) { UnheldIsUnread(block, flag); }
  }

  lemma DecidedFlags(lines: seq<string>)
    ensures Undecided(lines) == [] <==> Decided(lines, STRIPE_FLAG) && Decided(lines, GEOAPIFY_FLAG)
  {
    hide Decided;
  }

  /** The owned lines a finished run writes, once none looks like the closing marker. */
  lemma LeftIsOwned(lines: seq<string>)
    requires AllNoBreak(lines) && IsUnmarked(CustomBlock(lines))
    ensures IsOwned(Seeded(CustomBlock(lines), DEFAULTS))
    ensures forall k :: 0 <= k < |DEFAULTS| ==> HasKey(Seeded(CustomBlock(lines), DEFAULTS), DEFAULTS[k].0)
  {
    hide WellKeyed, CustomBlock, Seeded, IsBegin, IsEnd, HasKey, IsBlank;
    var block := CustomBlock(lines);
    DefaultsAreClean();
    BlockHasNoMarkers(lines);
    SeededIsTight(block, DEFAULTS);
    SeededKeepsUnmarked(block, DEFAULTS);
    SeededBreakFree(block, DEFAULTS);
    forall k | 0 <= k < |DEFAULTS| ensures HasKey(Seeded(block, DEFAULTS), DEFAULTS[k].0) {
      SeededHasKeys(block, DEFAULTS, k);
    }
  }

  /** On a stable file the switches of a pinned box change nothing. */
  lemma PinnedOffsChangeNothing(lines: seq<string>, auto: Pairs, j: Inputs)
    requires AllNoBreak(lines) && IsAuto(lines, auto) && IsUnmarked(CustomBlock(lines))
    requires Undecided(CustomBlock(lines)) == [] && PinsOffs(CustomBlock(lines), j)
    ensures SetAll(Left(lines, auto), Offs(j)) == (Left(lines, auto), true)
  {
    hide WellKeyed, CustomBlock, Seeded, HasKey, Pinned, SetAll, Undecided, Decided, IsUnmarked, IsOwned, FileText,
      PutAll;
    var block := CustomBlock(lines);
    var custom := Seeded(block, DEFAULTS);
    HeaderIsClean();
    DefaultsAreClean();
    LeftIsOwned(lines);
    DecidedFlags(block);
    DecidedHasKey(block, STRIPE_FLAG);
    DecidedHasKey(block, GEOAPIFY_FLAG);
    SeededKeepsKey(block, DEFAULTS, STRIPE_FLAG);
    SeededKeepsKey(block, DEFAULTS, GEOAPIFY_FLAG);
    if j.stripeOff { SeedingKeepsPins(block, DEFAULTS, STRIPE_FLAG, "false"); }
    if j.geoapifyOff { SeedingKeepsPins(block, DEFAULTS, GEOAPIFY_FLAG, "false"); }
    PinnedIsPut(custom, Offs(j));
    OffsAreClean(j);
    SetAllWritten(auto, custom, Offs(j));
  }

  /** What is decided in a written file is what its owned lines decide. */
  lemma WrittenDecision(lines: seq<string>, auto: Pairs, custom: seq<string>, flag: string)
    requires IsAuto(lines, auto) && flag !in AUTO_KEYS
    ensures Get(FileLines(HEADER, auto, custom), flag) == Get(custom, flag)
  {
    hide WellKeyed, Value, Unquote, Strip, FileLines;
    WrittenValue(auto, custom, flag);
    if auto == [] {
      NothingAssigned(flag);
    } else {
      AutoValue(auto[0].1, auto[1].1, auto[2].1, flag);
    }
  }

  lemma BooleansAreBare()
    ensures Unquote(Strip("true")) == "true" && Unquote(Strip("false")) == "false"
  {
    TrimIsStripped("true");
    TrimIsStripped("false");
  }

  /** The owned lines as the switches leave them, and as the prompts then leave those. */
  function Switched(custom: seq<string>, j: Inputs): seq<string> { PutAll(custom, Offs(j)) }

  function Asked(auto: Pairs, custom: seq<string>, j: Inputs): Pairs {
    Updates(FileLines(HEADER, auto, Switched(custom, j)), j.answers)
  }

  /** If prompts follow the switches, what they leave differs from what was there before both. */
  lemma PromptsShow(lines: seq<string>, auto: Pairs, custom: seq<string>, j: Inputs)
    requires IsAuto(lines, auto) && OneLine(j.answers)
    requires Undecided(FileLines(HEADER, auto, Switched(custom, j))) != []
    ensures PutAll(Switched(custom, j), Asked(auto, custom, j)) != custom
  {
    hide Value, WellKeyed, Unquote, Strip, FileLines, PutAll, Offs, Updates, Undecided, OneLine, IsAuto, LastOf;
    var switched := Switched(custom, j);
    var written := FileLines(HEADER, auto, switched);
    FlagsDiffer();
    BooleansAreBare();
    OffsAreClean(j);
    UpdatesAreClean(written, j.answers);
    DecidedFlags(written);
    var flag := if Decided(written, STRIPE_FLAG) then GEOAPIFY_FLAG else STRIPE_FLAG;
    WrittenDecision(lines, auto, switched, flag);
    OffsSay(j, flag);
    UpdatesSay(written, j.answers, flag);
    PutAllReads(custom, Offs(j), flag);
    PutAllReads(switched, Asked(auto, custom, j), flag);
  }

  lemma SameAutoLength(lines: seq<string>, auto: Pairs, other: seq<string>, auto': Pairs, cidrs: string)
    requires IsAuto(lines, auto) && IsAuto(other, auto') &&
             TfVarsOf(other, auto', cidrs) == TfVarsOf(lines, auto, cidrs)
    ensures |auto'| == |auto|
  {
    hide Get, CleanPairs;
  }

  lemma SettledHasBox(text: string, j: Inputs)
    requires HasBox(SplitLines(text)) && OneLine(j.answers)
    ensures HasBox(SplitLines(Settle(Some(text), j).0))
  {
    hide HasBox, SplitLines, SetAll, Offs, Updates, OneLine, Undecided, CleanPairs;
    OffsAreClean(j);
    SetAllFacts(text, Offs(j), STRIPE_FLAG);
    var flagged := SetAll(text, Offs(j)).0;
    UpdatesAreClean(SplitLines(flagged), j.answers);
    SetAllFacts(flagged, Updates(SplitLines(flagged), j.answers), STRIPE_FLAG);
  }

  /** If a second run left what the first did, then no owned line looked like the closing marker. */
  lemma RepeatedIsOwned(lines: seq<string>, auto: Pairs, again: seq<string>, auto': Pairs)
    requires AllNoBreak(lines) && IsAuto(lines, auto) && AllNoBreak(again) && IsAuto(again, auto') && HasBox(again)
    requires |auto'| == |auto| && Left(again, auto') == Left(lines, auto)
    ensures var custom := Seeded(CustomBlock(lines), DEFAULTS);
            && IsOwned(custom) && Seeded(CustomBlock(again), DEFAULTS) == custom
            && (forall k :: 0 <= k < |DEFAULTS| ==> HasKey(custom, DEFAULTS[k].0))
  {
    hide CustomBlock, Seeded, IsAuto, IsOwned, FileText, HasKey, HasBox, CleanPairs, IsBegin, IsEnd;
    LeftReads(lines, auto);
    LeftReads(again, auto');
    IsAutoIsClean(lines, auto);
    IsAutoIsClean(again, auto');
    FileTextIsInjective(HEADER, auto', Seeded(CustomBlock(again), DEFAULTS), auto,
      Seeded(CustomBlock(lines), DEFAULTS));
    BlockHasNoMarkers(again);
    LeftIsOwned(again);
  }

  lemma IsAutoIsClean(lines: seq<string>, auto: Pairs)
    requires IsAuto(lines, auto)
    ensures CleanPairs(auto) && CleanHeader(HEADER)
  {
    HeaderIsClean();
  }

  /** What the second run settles on, in terms of the owned lines. */
  lemma OwnedSettle(auto: Pairs, custom: seq<string>, j: Inputs)
    requires CleanHeader(HEADER) && CleanPairs(auto) && IsOwned(custom) && OneLine(j.answers)
    ensures var (settled, stop) := Settle(Some(FileText(HEADER, auto, custom)), j);
            var switched := Switched(custom, j);
            && IsOwned(switched)
            && SetAll(FileText(HEADER, auto, custom), Offs(j)) == (FileText(HEADER, auto, switched), true)
            && if Undecided(FileLines(HEADER, auto, switched)) == [] then
                 settled == FileText(HEADER, auto, switched) && stop.None?
               else stop.None? ==>
                 && settled == FileText(HEADER, auto, PutAll(switched, Asked(auto, custom, j)))
                 && IsOwned(PutAll(switched, Asked(auto, custom, j)))
  {
    hide FileText, FileLines, PutAll, Offs, Updates, SetAll, CleanPairs, SplitLines, Undecided, OneLine, CleanHeader,
      IsBegin, IsEnd, Tight;
    var switched := Switched(custom, j);
    OffsAreClean(j);
    SetAllWritten(auto, custom, Offs(j));
    FileTextReads(HEADER, auto, switched);
    UpdatesAreClean(FileLines(HEADER, auto, switched), j.answers);
    SetAllWritten(auto, switched, Asked(auto, custom, j));
  }

  lemma OwnedComesBack(auto: Pairs, custom: seq<string>)
    requires CleanHeader(HEADER) && CleanPairs(auto) && IsOwned(custom)
    requires forall k :: 0 <= k < |DEFAULTS| ==> HasKey(custom, DEFAULTS[k].0)
    ensures Seeded(CustomBlock(SplitLines(FileText(HEADER, auto, custom))), DEFAULTS) == custom
  {
    hide FileText, FileLines, SplitLines, CleanPairs, CustomBlock, Seeded, HasKey, Tight, CleanHeader, IsBegin, IsEnd;
    assert NoBreak(HEADER) by { CleanHasNoBreak(); }
    FileTextReads(HEADER, auto, custom);
    ReadWritten(HEADER, auto, custom);
    SeededAgain(custom, DEFAULTS);
  }

  lemma CleanHasNoBreak()
    ensures NoBreak(HEADER)
  {
    HeaderIsClean();
  }

  lemma PutAllKeepsDefaults(custom: seq<string>, updates: Pairs)
    requires CleanPairs(updates) && forall k :: 0 <= k < |DEFAULTS| ==> HasKey(custom, DEFAULTS[k].0)
    ensures forall k :: 0 <= k < |DEFAULTS| ==> HasKey(PutAll(custom, updates), DEFAULTS[k].0)
  {
    hide PutAll, HasKey, CleanPairs;
    forall k | 0 <= k < |DEFAULTS| ensures HasKey(PutAll(custom, updates), DEFAULTS[k].0) {
      PutAllKeepsKey(custom, updates, DEFAULTS[k].0);
    }
  }

  /** An owned block that a second run settles on and writes back neither grew nor changed, and no prompt was asked. */
  lemma OwnedIsUntouched(lines: seq<string>, auto: Pairs, custom: seq<string>, j: Inputs)
    requires IsAuto(lines, auto) && IsOwned(custom) && OneLine(j.answers)
    requires forall k :: 0 <= k < |DEFAULTS| ==> HasKey(custom, DEFAULTS[k].0)
    requires Settle(Some(FileText(HEADER, auto, custom)), j).1.None?
    requires Seeded(CustomBlock(SplitLines(Settle(Some(FileText(HEADER, auto, custom)), j).0)), DEFAULTS) == custom
    ensures Switched(custom, j) == custom && Undecided(FileLines(HEADER, auto, custom)) == []
    ensures SetAll(FileText(HEADER, auto, custom), Offs(j)) == (FileText(HEADER, auto, custom), true)
  {
    hide FileText, FileLines, PutAll, Offs, Updates, SetAll, CleanPairs, SplitLines, Undecided, OneLine, CleanHeader,
      IsOwned, HasKey, CustomBlock, Seeded, Settle, IsAuto;
    var switched := Switched(custom, j);
    IsAutoIsClean(lines, auto);
    OwnedSettle(auto, custom, j);
    OffsAreClean(j);
    PutAllKeepsDefaults(custom, Offs(j));
    OwnedComesBack(auto, switched);
    if Undecided(FileLines(HEADER, auto, switched)) != [] {
      UpdatesAreClean(FileLines(HEADER, auto, switched), j.answers);
      PutAllKeepsDefaults(switched, Asked(auto, custom, j));
      OwnedComesBack(auto, PutAll(switched, Asked(auto, custom, j)));
      PromptsShow(lines, auto, custom, j);
    }
  }

  lemma UntouchedIsPinned(custom: seq<string>, j: Inputs)
    requires Switched(custom, j) == custom
    ensures PinsOffs(custom, j)
  {
    hide PutAll, Offs, LastOf, Pinned, CleanPairs;
    OffsAreClean(j);
    OffsSay(j, STRIPE_FLAG);
    OffsSay(j, GEOAPIFY_FLAG);
    if j.stripeOff { PutAllPins(custom, Offs(j), STRIPE_FLAG, "false"); }
    if j.geoapifyOff { PutAllPins(custom, Offs(j), GEOAPIFY_FLAG, "false"); }
  }

  lemma PinsPrefix(block: seq<string>, custom: seq<string>, j: Inputs)
    requires block <= custom && PinsOffs(custom, j)
    ensures PinsOffs(block, j)
  {
    hide IsKeyLine;
    assert forall i :: 0 <= i < |block| ==> block[i] == custom[i];
  }

  /** A second run that repeats the first switched off only what the box says, and asked nothing. */
  lemma RepeatingIsUntouched(lines: seq<string>, auto: Pairs, once: Result, i: Inputs, j: Inputs)
    requires AllNoBreak(lines) && IsAuto(lines, auto) && once == Accepted(lines, auto, i)
    requires !j.regenerate && OneLine(j.answers) && SameHost(i, j)
    requires RunOf(once.text, once.tfvars, j) == once
    ensures SetAll(Left(lines, auto), Offs(j)) == (Left(lines, auto), true)
    ensures Undecided(SplitLines(Left(lines, auto))) == [] && PinsOffs(CustomBlock(lines), j)
  {
    hide FileText, FileLines, PutAll, Offs, SetAll, CleanPairs, SplitLines, Undecided, OneLine, CleanHeader, IsOwned,
      HasKey, CustomBlock, Seeded, Settle, IsAuto, TfVarsOf, RunOf, CurrentAuto, Finishes, HasBox, PinsOffs, Switched;
    var text, custom := Left(lines, auto), Seeded(CustomBlock(lines), DEFAULTS);
    AcceptedRun(Some(text), once.tfvars, j);
    var again := SplitLines(Settle(Some(text), j).0);
    var auto' := AutoOf(again, j).value;
    AutoIsAuto(again);
    SameAutoLength(lines, auto, again, auto', j.cidrs);
    LeftReads(lines, auto);
    WrittenHasBox(HEADER, auto, custom);
    SettledHasBox(text, j);
    RepeatedIsOwned(lines, auto, again, auto');
    OwnedIsUntouched(lines, auto, custom, j);
    UntouchedIsPinned(custom, j);
    SeededIsLonger(CustomBlock(lines), DEFAULTS);
    PinsPrefix(CustomBlock(lines), custom, j);
  }

  /**
   * After any run that returned 0, a run that regenerates nothing, but may prompt and switch off, changes neither
   * file and returns 0 again exactly when the CUSTOM box is stable and already says what the switches write.
   */
  lemma RerunIsExact(text: Option<string>, tfvars: Option<TfVars>, i: Inputs, j: Inputs)
    requires CleanMinted(i) && !j.regenerate && OneLine(j.answers) && SameHost(i, j)
    requires RunOf(text, tfvars, i).exit == Code(0)
    ensures var once := RunOf(text, tfvars, i);
            var lines := SplitLines(Settle(text, i).0);
            && AutoOf(lines, i).Some?
            && (RunOf(once.text, once.tfvars, j) == once <==>
                Stable(lines, AutoOf(lines, i).value) && PinsOffs(CustomBlock(lines), j))
  {
    hide RunOf, Settle, AutoOf, SplitLines, Left, Stable, IsAuto, TfVarsOf, PinsOffs, SetAll, Offs, Undecided,
      CustomBlock, OneLine, Passes;
    var once := RunOf(text, tfvars, i);
    var lines := SplitLines(Settle(text, i).0);
    AcceptedRun(text, tfvars, i);
    QuietRerunIsExact(text, tfvars, i, Hushed(j));
    var auto := AutoOf(lines, i).value;
    if RunOf(once.text, once.tfvars, j) == once {
      RepeatingIsUntouched(lines, auto, once, i, j);
      UnsetRun(Left(lines, auto), once.tfvars, j);
    }
    if Stable(lines, auto) && PinsOffs(CustomBlock(lines), j) {
      StableIsUnmarked(lines, auto);
      PinnedOffsChangeNothing(lines, auto, j);
      QuietRun(Left(lines, auto), once.tfvars, Hushed(j));
      UnsetRun(Left(lines, auto), once.tfvars, j);
    }
  }

  lemma StableIsUnmarked(lines: seq<string>, auto: Pairs)
    requires Stable(lines, auto)
    ensures IsUnmarked(CustomBlock(lines)) && Undecided(CustomBlock(lines)) == []
  {
  }

  // ----- the same switches again -----

  lemma {:induction false} PinnedReads(lines: seq<string>, key: string, value: string)
    requires WellKeyed(key) && Pinned(lines, key, value)
    ensures Value(lines, key) == if HasKey(lines, key) then Some(Unquote(Strip(value))) else None
  {
    hide KeyOf, HasEq, WellKeyed, Unquote, Strip;
    PinnedIsReplaced(lines, key, value);
    ReplacedReads(lines, key, value, key);
  }

  /** A flag switched off and prompted for all the same, as a later line shadows it, is not on in the whole file. */
  lemma PromptedOffIsShadowed(text: string, a: Answers, flag: string)
    requires flag == STRIPE_FLAG || flag == GEOAPIFY_FLAG
    requires HasBox(SplitLines(text)) && OneLine(a) && WellKeyed(flag)
    requires Value(SplitLines(text), flag) == Reading(LastWord(SplitLines(text), flag, START), "false")
    requires AllAre(Held(SplitLines(text), flag, false), Assign(flag, "false"))
    ensures var lines := SplitLines(SetAll(text, Updates(SplitLines(text), a)).0);
            && HasBox(lines)
            && (AllAre(Held(lines, flag, false), Assign(flag, "false")) ||
                (AllAre(Held(lines, flag, false), Assign(flag, "true")) && !On(lines, flag)))
  {
    hide Held, Value, SplitLines, SetAll, Updates, WellKeyed, LastWord, HasBox, OneLine, AllAre, LastOf, Unquote,
      Strip, Assign;
    BooleansAreBare();
    UpdatesAreClean(SplitLines(text), a);
    UpdatesSay(SplitLines(text), a, flag);
    SetAllFacts(text, Updates(SplitLines(text), a), flag);
  }

  /** What a run switched off, a stable box says. */
  lemma OffIsPinned(text: Option<string>, i: Inputs, auto: Pairs, flag: string)
    requires (flag == STRIPE_FLAG || flag == GEOAPIFY_FLAG) && IsOff(i, flag)
    requires OneLine(i.answers) && Settle(text, i).1.None? && Stable(SplitLines(Settle(text, i).0), auto)
    ensures Pinned(CustomBlock(SplitLines(Settle(text, i).0)), flag, "false")
  {
    hide Held, Value, SplitLines, SetAll, Updates, WellKeyed, LastWord, HasBox, OneLine, AllAre, LastOf, Unquote,
      Strip, Created, Offs, CustomBlock, Stable, Pinned, Undecided, Reading, Assign;
    FlagNames();
    OffsAreClean(i);
    OffsSay(i, flag);
    OffsNeedABox(Created(text), i, flag);
    SetAllFacts(Created(text), Offs(i), flag);
    var flagged := SetAll(Created(text), Offs(i)).0;
    ShadowReads(Created(text), flagged, flag);
    var lines := SplitLines(Settle(text, i).0);
    if Undecided(SplitLines(flagged)) == [] {
      HeldPinsBlock(lines, flag, "false");
    } else {
      PromptedOffIsShadowed(flagged, i.answers, flag);
      StableIsNotContradicted(lines, auto, flag);
    }
  }

  lemma ShadowReads(before: string, after: string, flag: string)
    requires LastWord(SplitLines(after), flag, START) == LastWord(SplitLines(before), flag, START)
    requires Value(SplitLines(after), flag) == Reading(LastWord(SplitLines(before), flag, START), "false")
    ensures Value(SplitLines(after), flag) == Reading(LastWord(SplitLines(after), flag, START), "false")
  {
    hide Value, LastWord, Reading, SplitLines;
  }

  lemma OffsNeedABox(text: string, i: Inputs, flag: string)
    requires IsOff(i, flag) && SetAll(text, Offs(i)).1
    ensures HasBox(SplitLines(text))
  {
    hide HasBox, SplitLines;
  }

  lemma StableIsNotContradicted(lines: seq<string>, auto: Pairs, flag: string)
    requires (flag == STRIPE_FLAG || flag == GEOAPIFY_FLAG) && WellKeyed(flag) && Stable(lines, auto) && HasBox(lines)
    requires AllAre(Held(lines, flag, false), Assign(flag, "false")) ||
             (AllAre(Held(lines, flag, false), Assign(flag, "true")) && !On(lines, flag))
    ensures Pinned(CustomBlock(lines), flag, "false")
  {
    hide Held, Value, WellKeyed, HasBox, AllAre, Unquote, Strip, CustomBlock, Pinned, Undecided, Problems, ComesBack,
      IsUnmarked;
    if AllAre(Held(lines, flag, false), Assign(flag, "false")) {
      HeldPinsBlock(lines, flag, "false");
    } else {
      HeldPinsBlock(lines, flag, "true");
      DecidedFlags(CustomBlock(lines));
      DecidedHasKey(CustomBlock(lines), flag);
      PinnedReads(CustomBlock(lines), flag, "true");
      BooleansAreBare();
    }
  }

  /** With no switch the first run did not have, prompting or not: a stable box is all it takes. */
  lemma SameSwitchesRepeat(text: Option<string>, tfvars: Option<TfVars>, i: Inputs, j: Inputs)
    requires CleanMinted(i) && !j.regenerate && OneLine(i.answers) && OneLine(j.answers) && SameHost(i, j)
    requires (j.stripeOff ==> i.stripeOff) && (j.geoapifyOff ==> i.geoapifyOff)
    requires RunOf(text, tfvars, i).exit == Code(0)
    ensures var once := RunOf(text, tfvars, i);
            var lines := SplitLines(Settle(text, i).0);
            && AutoOf(lines, i).Some?
            && (RunOf(once.text, once.tfvars, j) == once <==> Stable(lines, AutoOf(lines, i).value))
  {
    hide RunOf, Settle, AutoOf, SplitLines, Stable, CustomBlock, OneLine, Pinned;
    AcceptedRun(text, tfvars, i);
    RerunIsExact(text, tfvars, i, j);
    var lines := SplitLines(Settle(text, i).0);
    var auto := AutoOf(lines, i).value;
    if Stable(lines, auto) {
      if j.stripeOff { OffIsPinned(text, i, auto, STRIPE_FLAG); }
      if j.geoapifyOff { OffIsPinned(text, i, auto, GEOAPIFY_FLAG); }
    }
  }

  // ----- minted values -----

  predicate IsTokenChar(c: char) {
    'a' <= c <= 'z' || 'A' <= c <= 'Z' || '0' <= c <= '9' || c == '_' || c == '-'
  }

  /** What is minted: a signing secret or a URL-safe token. */
  predicate IsToken(value: string) { value != "" && forall i :: 0 <= i < |value| ==> IsTokenChar(value[i]) }

  predicate MintsTokens(i: Inputs) {
    i.minted.Some? ==> IsToken(i.minted.value.0) && IsToken(i.minted.value.1) && IsToken(i.minted.value.2)
  }

  lemma TokenIsPlain(value: string)
    requires IsToken(value)
    ensures Plain(value) && NoBreak(value)
  {
    assert IsTokenChar(value[0]) && IsTokenChar(value[|value| - 1]);
  }

  /** The box holds none of the AUTO values, or the very ones. */
  predicate AllowsAuto(block: seq<string>, auto: Pairs) {
    && Allows(block, WEBHOOK_SECRET, AutoGet(auto, 0))
    && Allows(block, USERS_TOKEN, AutoGet(auto, 1)) && Allows(block, ORDERS_TOKEN, AutoGet(auto, 2))
  }

  predicate PlainAuto(auto: Pairs) { Plain(AutoGet(auto, 0)) && Plain(AutoGet(auto, 1)) && Plain(AutoGet(auto, 2)) }

  lemma PlainIsStable(lines: seq<string>, auto: Pairs)
    requires On(lines, STRIPE_FLAG) ==> PlainAuto(auto)
    ensures Stable(lines, auto) <==>
            DecidesAlone(lines) && (On(lines, STRIPE_FLAG) ==> AllowsAuto(CustomBlock(lines), auto))
  {
    hide DecidesAlone, CustomBlock, Plain, ComesBack, Allows, On;
    if On(lines, STRIPE_FLAG) {
      PlainComesBack(CustomBlock(lines), WEBHOOK_SECRET, AutoGet(auto, 0));
      PlainComesBack(CustomBlock(lines), USERS_TOKEN, AutoGet(auto, 1));
      PlainComesBack(CustomBlock(lines), ORDERS_TOKEN, AutoGet(auto, 2));
    }
  }

  lemma MintedIsPlain(lines: seq<string>, i: Inputs)
    requires i.regenerate && MintsTokens(i) && AutoOf(lines, i).Some?
    ensures CleanMinted(i) && (On(lines, STRIPE_FLAG) ==> PlainAuto(AutoOf(lines, i).value))
  {
    hide IsToken, Plain, NoBreak, On;
    if i.minted.Some? {
      TokenIsPlain(i.minted.value.0);
      TokenIsPlain(i.minted.value.1);
      TokenIsPlain(i.minted.value.2);
    }
  }

  /**
   * After any run that minted its AUTO values and returned 0, one that regenerates nothing and has no switch of its
   * own repeats it exactly when the box decides alone and, with Stripe on, holds no other AUTO value: how values are
   * written and parsed has no part in it.
   */
  lemma MintedRunRepeats(text: Option<string>, tfvars: Option<TfVars>, i: Inputs, j: Inputs)
    requires i.regenerate && !j.regenerate && MintsTokens(i) && SameHost(i, j)
    requires OneLine(i.answers) && OneLine(j.answers)
    requires (j.stripeOff ==> i.stripeOff) && (j.geoapifyOff ==> i.geoapifyOff)
    requires RunOf(text, tfvars, i).exit == Code(0)
    ensures var once := RunOf(text, tfvars, i);
            var lines := SplitLines(Settle(text, i).0);
            && AutoOf(lines, i).Some?
            && (RunOf(once.text, once.tfvars, j) == once <==>
                && DecidesAlone(lines)
                && (On(lines, STRIPE_FLAG) ==> AllowsAuto(CustomBlock(lines), AutoOf(lines, i).value)))
  {
    hide RunOf, Settle, AutoOf, SplitLines, Stable, CustomBlock, OneLine, MintsTokens, CleanMinted, PlainAuto,
      AllowsAuto, DecidesAlone, On;
    AcceptedRun(text, tfvars, i);
    var lines := SplitLines(Settle(text, i).0);
    MintedIsPlain(lines, i);
    PlainIsStable(lines, AutoOf(lines, i).value);
    SameSwitchesRepeat(text, tfvars, i, j);
  }
}
