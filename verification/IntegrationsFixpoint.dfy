/** When a second run of the integrations repeats the first, exactly. */
module IntegrationsFixpoint {
  import opened Options
  import opened Text
  import opened EnvLines
  import opened EnvSetter
  import opened EnvWriter
  import opened EnvFile
  import opened Integrations

  predicate Same(lines: seq<string>, other: seq<string>, key: string) { Get(lines, key) == Get(other, key) }

  /** An AUTO value comes back as it was written: the box holds it, or printing and parsing leave it alone. */
  predicate ComesBack(block: seq<string>, key: string, value: string) {
    (if Value(block, key).Some? then Get(block, key) else Unquote(Strip(value))) == value
  }

  /**
   * The CUSTOM box by itself decides as the whole file does: both flags, every key that reaches the tfvars, and no
   * problem; and it holds no line like its own closing marker.
   */
  predicate DecidesAlone(lines: seq<string>) {
    var block := CustomBlock(lines);
    && IsUnmarked(block) && Undecided(block) == [] && Problems(block) == []
    && (On(lines, STRIPE_FLAG) <==> On(block, STRIPE_FLAG)) && (On(lines, GEOAPIFY_FLAG) <==> On(block, GEOAPIFY_FLAG))
    && (On(lines, STRIPE_FLAG) ==> Same(lines, block, USERS_KEY) && Same(lines, block, ORDERS_KEY))
    && (On(lines, GEOAPIFY_FLAG) ==> Same(lines, block, GEOAPIFY_KEY))
  }

  /** The box decides alone, and with Stripe on the AUTO values come back. */
  predicate Stable(lines: seq<string>, auto: Pairs) {
    var block := CustomBlock(lines);
    && DecidesAlone(lines)
    && (On(lines, STRIPE_FLAG) ==>
          && ComesBack(block, WEBHOOK_SECRET, AutoGet(auto, 0))
          && ComesBack(block, USERS_TOKEN, AutoGet(auto, 1)) && ComesBack(block, ORDERS_TOKEN, AutoGet(auto, 2)))
  }

  /** `--no-prompt`, nothing switched off, nothing regenerated. */
  predicate Quiet(i: Inputs) {
    !i.regenerate && !i.promptAllowed && !i.stripeOff && !i.geoapifyOff
  }

  /** The machine is the same: the Stripe CLI is there or not, and the addresses to allow. */
  predicate SameHost(i: Inputs, j: Inputs) { j.cliOnPath == i.cliOnPath && j.cidrs == i.cidrs }

  /** The signing secret and the tokens minted are single lines. */
  predicate CleanMinted(i: Inputs) {
    i.minted.Some? ==> NoBreak(i.minted.value.0) && NoBreak(i.minted.value.1) && NoBreak(i.minted.value.2)
  }

  lemma FlagNames()
    ensures WellKeyed(STRIPE_FLAG) && WellKeyed(GEOAPIFY_FLAG) && WellKeyed(GEOAPIFY_KEY) && WellKeyed(CLI_KEY)
  {
  }

  lemma SecretNames()
    ensures WellKeyed(USERS_KEY) && WellKeyed(ORDERS_KEY)
  {
  }

  lemma KeyNames()
    ensures WellKeyed(USERS_KEY) && WellKeyed(ORDERS_KEY) && WellKeyed(PUBLISHABLE_KEY) && WellKeyed(WEBHOOK_SECRET)
  {
    SecretNames();
  }

  lemma TokenNames()
    ensures WellKeyed(USERS_TOKEN) && WellKeyed(ORDERS_TOKEN)
  {
    var stem := "STRIPE_WEBHOOK_URL_TOKEN";
    assert WellKeyed(stem);
    assert WellKeyed("_USERS") && WellKeyed("_ORDERS");
    assert forall i :: 0 <= i < |stem| ==> USERS_TOKEN[i] == stem[i] && ORDERS_TOKEN[i] == stem[i];
  }

  lemma HeaderIsOneLine()
    ensures NoBreak(HEADER)
  {
    var a, b, c := "Pre-prod integrations", " — make preprod-integrations.", " See [[preprod]]";
    assert NoBreak(a) && NoBreak(b) && NoBreak(c);
    hide NoBreak;
    ConcatNoBreak(a, b);
    ConcatNoBreak(a + b, c);
  }

  lemma HeaderIsClean()
    ensures CleanHeader(HEADER)
  {
    hide NoBreak;
    HeaderIsOneLine();
    assert ("# " + HEADER)[2] == 'P' && CUSTOM_BEGIN[2] == '>' && AUTO_BEGIN_PREFIX[2] == '>';
  }

  lemma DefaultsAreClean()
    ensures CleanPairs(DEFAULTS) && DistinctKeys(DEFAULTS)
    ensures forall i :: 0 <= i < |DEFAULTS| ==> DEFAULTS[i].1 == ""
  {
    FlagNames();
    KeyNames();
    KeysDiffer();
  }

  lemma KeysDiffer()
    ensures DistinctKeys(DEFAULTS)
    ensures forall i :: 0 <= i < |DEFAULTS| ==> DEFAULTS[i].0 !in AUTO_KEYS
    ensures USERS_TOKEN != ORDERS_TOKEN && USERS_TOKEN != WEBHOOK_SECRET && ORDERS_TOKEN != WEBHOOK_SECRET
  {
    assert USERS_KEY[18] == 'U' && ORDERS_KEY[18] == 'O';
    assert |STRIPE_FLAG| == 14 && |USERS_KEY| == 23 && |ORDERS_KEY| == 24 && |PUBLISHABLE_KEY| == 22;
    assert |CLI_KEY| == 18 && |GEOAPIFY_FLAG| == 16 && |GEOAPIFY_KEY| == 16 && GEOAPIFY_FLAG[9] == 'E' &&
      GEOAPIFY_KEY[9] == 'A';
    assert |WEBHOOK_SECRET| == 21 && |USERS_TOKEN| == 30 && |ORDERS_TOKEN| == 31;
  }

  // ----- what is read from a written file -----

  lemma {:induction false} UnheldIsUnread(lines: seq<string>, key: string)
    requires !HasKey(lines, key)
    ensures Value(lines, key).None?
  {
    if lines != [] {
      assert forall i :: 0 <= i < |lines[1..]| ==> lines[1..][i] == lines[i + 1];
      UnheldIsUnread(lines[1..], key);
      if Active(lines[0]).Some? {
        ActiveIsKeyLine(lines[0]);
        assert !IsKeyLine(lines[0], key);
      }
    }
  }

  /** Seeding empty defaults changes no value `get` returns. */
  lemma {:induction false} SeedingIsInvisible(custom: seq<string>, defaults: Pairs, key: string)
    requires CleanPairs(defaults) && forall i :: 0 <= i < |defaults| ==> defaults[i].1 == ""
    ensures Get(Seeded(custom, defaults), key) == Get(custom, key)
    ensures (forall i :: 0 <= i < |defaults| ==> defaults[i].0 != key) ==>
            Value(Seeded(custom, defaults), key) == Value(custom, key)
    decreases |defaults|
  {
    if defaults != [] {
      var name := defaults[0].0;
      var next := SeedOne(custom, name, "");
      SeedingIsInvisible(next, defaults[1..], key);
      if !HasKey(custom, name) {
        AssignIsActive(name, "");
        ValueOne(Assign(name, ""), key);
        ValueConcat(custom, [Assign(name, "")], key);
        if name == key { UnheldIsUnread(custom, key); }
      }
    }
  }

  lemma {:induction false} CommentsReadNothing(lines: seq<string>, key: string)
    requires forall i :: 0 <= i < |lines| ==> lines[i] == "" || lines[i][0] == '#'
    ensures Value(lines, key).None?
  {
    if lines != [] {
      if lines[0] != "" { CommentIsInactive(lines[0]); }
      CommentsReadNothing(lines[1..], key);
    }
  }

  /** parse on a written file: the CUSTOM lines over the AUTO lines, and nothing else. */
  lemma WrittenValue(auto: Pairs, custom: seq<string>, key: string)
    ensures Value(FileLines(HEADER, auto, custom), key) ==
              if Value(custom, key).Some? then Value(custom, key) else Value(Assignments(auto), key)
  {
    var head, mid, tail := ["# " + HEADER, AUTO_BEGIN], [AUTO_END, "", CUSTOM_BEGIN], [CUSTOM_END];
    var autos := Assignments(auto);
    MarkersDiffer();
    MarkersAreComments(AUTO_BEGIN);
    MarkersAreComments(AUTO_END);
    MarkersAreComments(CUSTOM_BEGIN);
    MarkersAreComments(CUSTOM_END);
    assert ("# " + HEADER)[0] == '#';
    CommentsReadNothing(head, key);
    CommentsReadNothing(mid, key);
    CommentsReadNothing(tail, key);
    ValueConcat(head, autos, key);
    ValueConcat(head + autos, mid, key);
    ValueConcat(head + autos + mid, custom, key);
    ValueConcat(head + autos + mid + custom, tail, key);
  }

  lemma AutoValue(secret: string, users: string, orders: string, key: string)
    ensures Value(Assignments(AutoPairs(secret, users, orders)), key) ==
              if key == ORDERS_TOKEN then Some(Unquote(Strip(orders)))
              else if key == USERS_TOKEN then Some(Unquote(Strip(users)))
              else if key == WEBHOOK_SECRET then Some(Unquote(Strip(secret)))
              else None
  {
    hide Value, Active, KeyOf, Strip, Unquote, WellKeyed, IsBlank;
    KeyNames();
    TokenNames();
    KeysDiffer();
    var a, b, c := Assign(WEBHOOK_SECRET, secret), Assign(USERS_TOKEN, users), Assign(ORDERS_TOKEN, orders);
    AssignIsActive(WEBHOOK_SECRET, secret);
    AssignIsActive(USERS_TOKEN, users);
    AssignIsActive(ORDERS_TOKEN, orders);
    ValueOne(a, key);
    ValueOne(b, key);
    ValueOne(c, key);
    ValueConcat([a], [b], key);
    ValueConcat([a] + [b], [c], key);
    assert Assignments(AutoPairs(secret, users, orders)) == [a] + [b] + [c];
  }

  lemma {:induction false} ValueBreakFree(lines: seq<string>, key: string)
    requires AllNoBreak(lines)
    ensures NoBreak(Get(lines, key))
  {
    if lines != [] {
      assert AllNoBreak(lines[1..]);
      ValueBreakFree(lines[1..], key);
      var line := Strip(lines[0]);
      StripBreakFree(lines[0]);
      if HasEq(line) {
        var raw := line[Find(line, '=') + 1..];
        StripBreakFree(raw);
      }
    }
  }

  lemma StripBreakFree(s: string)
    requires NoBreak(s)
    ensures NoBreak(Strip(s))
  {
    LStripSplit(s);
    RStripEnds(LStrip(s));
  }

  /** The AUTO values of a file that can be written back. */
  predicate IsAuto(lines: seq<string>, auto: Pairs) {
    && CleanPairs(auto)
    && if On(lines, STRIPE_FLAG) then |auto| == 3 && auto == AutoPairs(auto[0].1, auto[1].1, auto[2].1) else auto == []
  }

  lemma AutoIsClean(lines: seq<string>, i: Inputs)
    requires AllNoBreak(lines) && CleanMinted(i) && AutoOf(lines, i).Some?
    ensures IsAuto(lines, AutoOf(lines, i).value)
  {
    hide Value, WellKeyed;
    KeyNames();
    TokenNames();
    ValueBreakFree(lines, WEBHOOK_SECRET);
    ValueBreakFree(lines, USERS_TOKEN);
    ValueBreakFree(lines, ORDERS_TOKEN);
  }

  /** What a finished run leaves in the env file. */
  function Left(lines: seq<string>, auto: Pairs): string {
    FileText(HEADER, auto, Seeded(CustomBlock(lines), DEFAULTS))
  }

  lemma LeftReads(lines: seq<string>, auto: Pairs)
    requires AllNoBreak(lines) && IsAuto(lines, auto)
    ensures SplitLines(Left(lines, auto)) == FileLines(HEADER, auto, Seeded(CustomBlock(lines), DEFAULTS))
    ensures AllNoBreak(Seeded(CustomBlock(lines), DEFAULTS)) && CleanHeader(HEADER) && CleanPairs(DEFAULTS)
  {
    hide SplitLines, WellKeyed;
    HeaderIsClean();
    DefaultsAreClean();
    BlockHasNoMarkers(lines);
    SeededBreakFree(CustomBlock(lines), DEFAULTS);
    FileTextReads(HEADER, auto, Seeded(CustomBlock(lines), DEFAULTS));
  }

  /** What a finished run wrote: every decision read back is the one the CUSTOM box holds. */
  lemma DecisionsComeFromCustom(lines: seq<string>, auto: Pairs, key: string)
    requires AllNoBreak(lines) && IsAuto(lines, auto) && key !in AUTO_KEYS
    ensures Get(SplitLines(Left(lines, auto)), key) == Get(CustomBlock(lines), key)
  {
    hide SplitLines, WellKeyed, Value, Unquote, Strip, Seeded, CustomBlock;
    LeftReads(lines, auto);
    DefaultsAreClean();
    WrittenValue(auto, Seeded(CustomBlock(lines), DEFAULTS), key);
    SeedingIsInvisible(CustomBlock(lines), DEFAULTS, key);
    if auto == [] {
      NothingAssigned(key);
    } else {
      AutoValue(auto[0].1, auto[1].1, auto[2].1, key);
    }
  }

  lemma NothingAssigned(key: string)
    ensures Value(Assignments([]), key).None?
  {
  }

  /** And an AUTO value read back is the box's, if it holds one, and else what parsing makes of the one written. */
  lemma AutoReads(lines: seq<string>, auto: Pairs, n: nat)
    requires AllNoBreak(lines) && IsAuto(lines, auto) && On(lines, STRIPE_FLAG) && n < 3
    ensures var key, block := AUTO_KEYS[n], CustomBlock(lines);
            Get(SplitLines(Left(lines, auto)), key) ==
              if Value(block, key).Some? then Get(block, key) else Unquote(Strip(auto[n].1))
  {
    hide SplitLines, WellKeyed, Value, Unquote, Strip, Seeded, CustomBlock;
    LeftReads(lines, auto);
    DefaultsAreClean();
    KeysDiffer();
    WrittenValue(auto, Seeded(CustomBlock(lines), DEFAULTS), AUTO_KEYS[n]);
    SeedingIsInvisible(CustomBlock(lines), DEFAULTS, AUTO_KEYS[n]);
    AutoValue(auto[0].1, auto[1].1, auto[2].1, AUTO_KEYS[n]);
  }

  /** Two files that agree on the decisive keys are judged alike. */
  predicate Agree(lines: seq<string>, other: seq<string>) {
    && Same(lines, other, STRIPE_FLAG) && Same(lines, other, USERS_KEY) && Same(lines, other, ORDERS_KEY)
    && Same(lines, other, PUBLISHABLE_KEY) && Same(lines, other, CLI_KEY)
    && Same(lines, other, GEOAPIFY_FLAG) && Same(lines, other, GEOAPIFY_KEY)
  }

  lemma {:induction false} AgreeOnRequired(lines: seq<string>, other: seq<string>, keys: seq<string>)
    requires forall k :: 0 <= k < |keys| ==> Same(lines, other, keys[k])
    ensures EmptyRequired(lines, keys) == EmptyRequired(other, keys) && BadKeys(lines, keys) == BadKeys(other, keys)
  {
    if keys != [] {
      assert Same(lines, other, keys[0]);
      assert forall k :: 0 <= k < |keys[1..]| ==> keys[1..][k] == keys[k + 1];
      AgreeOnRequired(lines, other, keys[1..]);
    }
  }

  lemma JudgedAlike(lines: seq<string>, other: seq<string>)
    requires Agree(lines, other)
    ensures Problems(lines) == Problems(other) && Undecided(lines) == Undecided(other)
    ensures forall auto, cidrs :: TfVarsOf(lines, auto, cidrs) == TfVarsOf(other, auto, cidrs)
  {
    hide Value;
    AgreeOnRequired(lines, other, REQUIRED);
    AgreeOnRequired(lines, other, CHECKED);
  }

  /** The file left is judged as its CUSTOM box is. */
  lemma LeftAgrees(lines: seq<string>, auto: Pairs)
    requires AllNoBreak(lines) && IsAuto(lines, auto)
    ensures Agree(SplitLines(Left(lines, auto)), CustomBlock(lines))
  {
    hide SplitLines, Left, CustomBlock, Get, IsAuto;
    KeysDiffer();
    assert DEFAULTS[0].0 == STRIPE_FLAG && DEFAULTS[1].0 == USERS_KEY && DEFAULTS[2].0 == ORDERS_KEY;
    assert DEFAULTS[3].0 == PUBLISHABLE_KEY && DEFAULTS[4].0 == CLI_KEY;
    assert DEFAULTS[5].0 == GEOAPIFY_FLAG && DEFAULTS[6].0 == GEOAPIFY_KEY;
    DecisionsComeFromCustom(lines, auto, STRIPE_FLAG);
    DecisionsComeFromCustom(lines, auto, USERS_KEY);
    DecisionsComeFromCustom(lines, auto, ORDERS_KEY);
    DecisionsComeFromCustom(lines, auto, PUBLISHABLE_KEY);
    DecisionsComeFromCustom(lines, auto, CLI_KEY);
    DecisionsComeFromCustom(lines, auto, GEOAPIFY_FLAG);
    DecisionsComeFromCustom(lines, auto, GEOAPIFY_KEY);
  }

  // ----- one run -----

  /** Decided, valid, and with every AUTO value in place. */
  predicate Passes(lines: seq<string>, i: Inputs) {
    && Undecided(lines) == [] && Problems(lines) == []
    && (On(lines, STRIPE_FLAG) ==> i.cliOnPath)
    && CurrentAuto(lines).Some? && FirstEmpty(CurrentAuto(lines).value).None?
  }

  function Accepted(lines: seq<string>, auto: Pairs, i: Inputs): Result {
    Result(Some(Left(lines, auto)), Some(TfVarsOf(lines, auto, i.cidrs)), Code(0))
  }

  /** A quiet run returns 0 exactly when the file passes, and then this is all it does. */
  lemma QuietRun(text: string, tfvars: Option<TfVars>, i: Inputs)
    requires Quiet(i)
    ensures RunOf(Some(text), tfvars, i).exit == Code(0) <==> Passes(SplitLines(text), i)
    ensures var lines := SplitLines(text);
            Passes(lines, i) ==> RunOf(Some(text), tfvars, i) == Accepted(lines, CurrentAuto(lines).value, i)
    ensures Undecided(SplitLines(text)) != [] ==> RunOf(Some(text), tfvars, i) == Result(Some(text), tfvars, Code(1))
  {
    hide Problems, Undecided, CurrentAuto, SplitLines, Get, FirstEmpty, Settle, Finish, Accepted, Passes;
    QuietSettle(text, i);
    FinishIs(text, tfvars, i);
    PassesIs(SplitLines(text), i);
  }

  lemma PassesIs(lines: seq<string>, i: Inputs)
    requires !i.regenerate
    ensures Passes(lines, i) <==> Undecided(lines) == [] && Finishes(lines, i)
    ensures AutoOf(lines, i) == CurrentAuto(lines)
  {
    hide Problems, Undecided, CurrentAuto, Get, FirstEmpty;
  }

  lemma QuietSettle(text: string, i: Inputs)
    requires Quiet(i)
    ensures Settle(Some(text), i) == (text, if Undecided(SplitLines(text)) == [] then None else Some(Code(1)))
  {
    hide Undecided, SplitLines, Updates, HasBox;
  }

  /** Valid, and with every AUTO value there or minted. */
  predicate Finishes(lines: seq<string>, i: Inputs) {
    && Problems(lines) == [] && (On(lines, STRIPE_FLAG) ==> i.cliOnPath)
    && AutoOf(lines, i).Some? && FirstEmpty(AutoOf(lines, i).value).None?
  }

  lemma FinishIs(text: string, tfvars: Option<TfVars>, i: Inputs)
    ensures var lines := SplitLines(text);
            && (Finish(text, tfvars, i).exit == Code(0) <==> Finishes(lines, i))
            && (Finishes(lines, i) ==> Finish(text, tfvars, i) == Accepted(lines, AutoOf(lines, i).value, i))
  {
    hide Problems, AutoOf, SplitLines, Get, FirstEmpty, FileText, TfVarsOf, CustomBlock, Seeded;
  }

  /** Any run that returns 0, prompted, switched off, regenerating or creating, wrote this. */
  lemma AcceptedRun(text: Option<string>, tfvars: Option<TfVars>, i: Inputs)
    requires RunOf(text, tfvars, i).exit == Code(0)
    ensures var lines := SplitLines(Settle(text, i).0);
            && Settle(text, i).1.None? && AutoOf(lines, i).Some?
            && RunOf(text, tfvars, i) == Accepted(lines, AutoOf(lines, i).value, i)
            && Finishes(lines, i)
  {
    hide Settle, Accepted, SplitLines, Finish, Finishes, AutoOf;
    FinishIs(Settle(text, i).0, tfvars, i);
    FinishesHasAuto(SplitLines(Settle(text, i).0), i);
  }

  lemma FinishesHasAuto(lines: seq<string>, i: Inputs)
    ensures Finishes(lines, i) ==> AutoOf(lines, i).Some?
  {
    hide AutoOf, Problems, FirstEmpty;
  }

  // ----- a second run -----

  /** The file left passes with the same AUTO values, tfvars and text: all a second run needs. */
  predicate Repeats(lines: seq<string>, auto: Pairs, i: Inputs) {
    var again := SplitLines(Left(lines, auto));
    && Passes(again, i) && Accepted(again, CurrentAuto(again).value, i) == Accepted(lines, auto, i)
  }

  lemma CurrentAutoIs(lines: seq<string>, auto: Pairs, again: seq<string>)
    requires IsAuto(lines, auto) && FirstEmpty(auto).None? && (On(again, STRIPE_FLAG) <==> On(lines, STRIPE_FLAG))
    requires On(lines, STRIPE_FLAG) ==> forall n :: 0 <= n < 3 ==> Get(again, AUTO_KEYS[n]) == auto[n].1
    ensures CurrentAuto(again) == Some(auto)
  {
    hide Value, CleanPairs;
    if On(lines, STRIPE_FLAG) {
      assert FirstEmpty(auto[1..]).None? && FirstEmpty(auto[1..][1..]).None?;
      assert Get(again, AUTO_KEYS[0]) == auto[0].1 && Get(again, AUTO_KEYS[1]) == auto[1].1 &&
        Get(again, AUTO_KEYS[2]) == auto[2].1;
    }
  }

  lemma StableRepeats(text: string, auto: Pairs, i: Inputs)
    requires var lines := SplitLines(text);
             && IsAuto(lines, auto) && FirstEmpty(auto).None? && (On(lines, STRIPE_FLAG) ==> i.cliOnPath)
             && Stable(lines, auto)
    ensures Repeats(SplitLines(text), auto, i)
  {
    hide SplitLines, Left, CustomBlock, Value, Get, Seeded, CleanPairs, FirstEmpty, CurrentAuto, Problems, Undecided,
      Unquote, Strip, IsUnmarked, FileText, TfVarsOf, IsAuto;
    var lines := SplitLines(text);
    var again, block := SplitLines(Left(lines, auto)), CustomBlock(lines);
    LeftAgrees(lines, auto);
    JudgedAlike(again, block);
    StableAuto(lines, auto);
    StableTfVars(lines, auto, again, i.cidrs);
    UnmarkedIsLeft(text, auto);
  }

  lemma UnmarkedIsLeft(text: string, auto: Pairs)
    requires IsAuto(SplitLines(text), auto) && IsUnmarked(CustomBlock(SplitLines(text)))
    ensures Left(SplitLines(Left(SplitLines(text), auto)), auto) == Left(SplitLines(text), auto)
  {
    hide SplitLines, Left, CustomBlock, Seeded, CleanPairs, IsUnmarked, FileText;
    var lines := SplitLines(text);
    LeftReads(lines, auto);
    LeftIsWritten(text, auto);
    LeftIsText(SplitLines(Left(lines, auto)), auto);
    WrittenBlockComesBack(Some(text), HEADER, auto, DEFAULTS);
  }

  lemma StableAuto(lines: seq<string>, auto: Pairs)
    requires AllNoBreak(lines) && IsAuto(lines, auto) && FirstEmpty(auto).None? && Stable(lines, auto)
    ensures CurrentAuto(SplitLines(Left(lines, auto))) == Some(auto)
  {
    hide SplitLines, Left, CustomBlock, Value, CleanPairs, FirstEmpty, CurrentAuto, Problems, Undecided, Unquote,
      Strip, IsUnmarked;
    LeftAgrees(lines, auto);
    if On(lines, STRIPE_FLAG) {
      AutoReads(lines, auto, 0);
      AutoReads(lines, auto, 1);
      AutoReads(lines, auto, 2);
    }
    CurrentAutoIs(lines, auto, SplitLines(Left(lines, auto)));
  }

  lemma StableTfVars(lines: seq<string>, auto: Pairs, again: seq<string>, cidrs: string)
    requires Stable(lines, auto) && Agree(again, CustomBlock(lines))
    ensures TfVarsOf(again, auto, cidrs) == TfVarsOf(lines, auto, cidrs)
  {
    hide CustomBlock, Value, Problems, Undecided, IsUnmarked, Unquote, Strip;
  }

  lemma LeftIsWritten(text: string, auto: Pairs)
    ensures Left(SplitLines(text), auto) == FileText(HEADER, auto, Seeded(Block(Some(text)), DEFAULTS))
  {
  }

  lemma RepeatsIsStable(text: string, auto: Pairs, i: Inputs)
    requires var lines := SplitLines(text); IsAuto(lines, auto) && Repeats(lines, auto, i)
    ensures Stable(SplitLines(text), auto)
  {
    hide SplitLines, Left, CustomBlock, Value, Seeded, CleanPairs, FirstEmpty, Problems, Undecided, Unquote, Strip,
      IsUnmarked, FileText;
    var lines := SplitLines(text);
    var again, block := SplitLines(Left(lines, auto)), CustomBlock(lines);
    LeftAgrees(lines, auto);
    JudgedAlike(again, block);
    var auto' := CurrentAuto(again).value;
    assert TfVarsOf(again, auto', i.cidrs) == TfVarsOf(lines, auto, i.cidrs);
    assert |auto'| == |auto|;
    if On(lines, STRIPE_FLAG) {
      AutoReads(lines, auto, 0);
      AutoReads(lines, auto, 1);
      AutoReads(lines, auto, 2);
    }
    LeftReads(lines, auto);
    AutoIsAuto(again);
    LeftReads(again, auto');
    FileTextIsInjective(HEADER, auto', Seeded(CustomBlock(again), DEFAULTS), auto, Seeded(block, DEFAULTS)) by {
      LeftIsText(again, auto');
      LeftIsText(lines, auto);
    }
    WrittenBlockComesBack(Some(text), HEADER, auto, DEFAULTS);
    LeftIsWritten(text, auto);
    LeftIsText(again, auto');
    LeftIsText(lines, auto);
  }

  lemma LeftIsText(lines: seq<string>, auto: Pairs)
    ensures Left(lines, auto) == FileText(HEADER, auto, Seeded(CustomBlock(lines), DEFAULTS))
  {
  }

  lemma AutoIsAuto(lines: seq<string>)
    requires AllNoBreak(lines) && CurrentAuto(lines).Some?
    ensures IsAuto(lines, CurrentAuto(lines).value)
  {
    hide Value, WellKeyed;
    KeyNames();
    TokenNames();
    ValueBreakFree(lines, WEBHOOK_SECRET);
    ValueBreakFree(lines, USERS_TOKEN);
    ValueBreakFree(lines, ORDERS_TOKEN);
  }

  /**
   * After any run that returned 0, whether it prompted, switched off, regenerated or created the file, a quiet run
   * changes neither file and returns 0 again exactly when the CUSTOM box is stable.
   */
  lemma QuietRerunIsExact(text: Option<string>, tfvars: Option<TfVars>, i: Inputs, j: Inputs)
    requires CleanMinted(i) && Quiet(j) && SameHost(i, j)
    requires RunOf(text, tfvars, i).exit == Code(0)
    ensures var once := RunOf(text, tfvars, i);
            var lines := SplitLines(Settle(text, i).0);
            && AutoOf(lines, i).Some? && IsAuto(lines, AutoOf(lines, i).value)
            && (RunOf(once.text, once.tfvars, j) == once <==> Stable(lines, AutoOf(lines, i).value))
  {
    hide Settle, AutoOf, SplitLines, Left, Stable, Passes, IsAuto, TfVarsOf, CurrentAuto, RunOf, Problems, Get,
      FirstEmpty;
    AcceptedRun(text, tfvars, i);
    var settled := Settle(text, i).0;
    var lines := SplitLines(settled);
    var auto := AutoOf(lines, i).value;
    AutoIsClean(lines, i);
    var once := RunOf(text, tfvars, i);
    QuietRun(Left(lines, auto), once.tfvars, j);
    if Stable(lines, auto) { StableRepeats(settled, auto, j); }
    if RunOf(once.text, once.tfvars, j) == once { RepeatsIsStable(settled, auto, j); }
  }

  /** Trimmed and not wrapped in quotes: what printing and parsing leave alone. */
  predicate Plain(value: string) { Trim(value) && Unquote(value) == value }

  /** The box does not say otherwise. */
  predicate Allows(block: seq<string>, key: string, value: string) {
    Value(block, key).None? || Get(block, key) == value
  }

  /** A plain AUTO value comes back exactly when the box does not contradict it. */
  lemma PlainComesBack(block: seq<string>, key: string, value: string)
    requires Plain(value)
    ensures ComesBack(block, key, value) <==> Allows(block, key, value)
  {
    TrimIsStripped(value);
  }

  // ----- examples -----

  /** A file with both integrations declined above the CUSTOM box: one run accepts it, the next refuses. */
  function DeclinedOutside(): seq<string> {
    [Assign(STRIPE_FLAG, "false"), Assign(GEOAPIFY_FLAG, "false"), CUSTOM_BEGIN, CUSTOM_END]
  }

  lemma DeclinedOutsideReads(key: string)
    ensures Value(DeclinedOutside(), key) == if key == STRIPE_FLAG || key == GEOAPIFY_FLAG then Some("false") else None
  {
    hide Value, Active, KeyOf, Strip, WellKeyed, IsBlank;
    var a, b, rest := Assign(STRIPE_FLAG, "false"), Assign(GEOAPIFY_FLAG, "false"), [CUSTOM_BEGIN, CUSTOM_END];
    FlagNames();
    AssignIsActive(STRIPE_FLAG, "false");
    AssignIsActive(GEOAPIFY_FLAG, "false");
    TrimIsStripped("false");
    ValueOne(a, key);
    ValueOne(b, key);
    MarkersDiffer();
    MarkersAreComments(CUSTOM_BEGIN);
    MarkersAreComments(CUSTOM_END);
    CommentsReadNothing(rest, key);
    ValueConcat([a], [b], key);
    ValueConcat([a] + [b], rest, key);
    assert DeclinedOutside() == [a] + [b] + rest;
  }

  /** Lines before the first box never reach the block. */
  lemma EmptyBoxBlock(a: string, b: string, begin: string, end: string)
    requires !IsBegin(a) && !IsBegin(b) && IsBegin(begin) && IsEnd(end) && !IsBegin(end)
    ensures CustomBlock([a, b, begin, end]) == []
  {
    assert [a, b, begin, end] == [a, b] + [begin, end];
    assert IsBegin([a, b, begin, end][2]);
    SkipOutside([a, b], [begin, end]);
    assert [begin, end][1..] == [end] && [end][1..] == [];
    assert CustomLines([end], true) == [];
  }

  lemma DeclinedOutsideBlock()
    ensures CustomBlock(DeclinedOutside()) == []
  {
    FlagNames();
    AssignIsKeyLine(STRIPE_FLAG, "false");
    AssignIsKeyLine(GEOAPIFY_FLAG, "false");
    MarkersDiffer();
    EmptyBoxBlock(Assign(STRIPE_FLAG, "false"), Assign(GEOAPIFY_FLAG, "false"), CUSTOM_BEGIN, CUSTOM_END);
  }

  lemma DeclinedOutsideBreakFree()
    ensures AllNoBreak(DeclinedOutside())
  {
    FlagNames();
    ConcatNoBreak(STRIPE_FLAG, "=");
    ConcatNoBreak(STRIPE_FLAG + "=", "false");
    ConcatNoBreak(GEOAPIFY_FLAG, "=");
    ConcatNoBreak(GEOAPIFY_FLAG + "=", "false");
    AutoMarkersHaveNoBreak();
    CustomMarkersHaveNoBreak();
  }

  lemma {:induction false} NoKeysNoProblems(lines: seq<string>, keys: seq<string>)
    requires forall k :: 0 <= k < |keys| ==> Get(lines, keys[k]) == ""
    ensures BadKeys(lines, keys) == []
  {
    if keys != [] {
      NoKeysNoProblems(lines, keys[1..]);
    }
  }

  /** Declining both integrations is enough to pass. */
  lemma DeclinedPasses(lines: seq<string>, i: Inputs)
    requires Get(lines, STRIPE_FLAG) == "false" && Get(lines, GEOAPIFY_FLAG) == "false"
    requires forall k :: 0 <= k < |CHECKED| ==> Get(lines, CHECKED[k]) == ""
    ensures Passes(lines, i)
  {
    NoKeysNoProblems(lines, CHECKED);
  }

  lemma DeclinedOutsideHolds()
    ensures Get(DeclinedOutside(), STRIPE_FLAG) == "false" && Get(DeclinedOutside(), GEOAPIFY_FLAG) == "false"
    ensures forall k :: 0 <= k < |CHECKED| ==> Get(DeclinedOutside(), CHECKED[k]) == ""
  {
    hide DeclinedOutside, Value;
    KeysDiffer();
    assert DEFAULTS[0].0 == STRIPE_FLAG && DEFAULTS[1].0 == USERS_KEY && DEFAULTS[2].0 == ORDERS_KEY &&
      DEFAULTS[3].0 == PUBLISHABLE_KEY;
    assert DEFAULTS[4].0 == CLI_KEY && DEFAULTS[5].0 == GEOAPIFY_FLAG;
    DeclinedOutsideReads(STRIPE_FLAG);
    DeclinedOutsideReads(GEOAPIFY_FLAG);
    DeclinedOutsideReads(USERS_KEY);
    DeclinedOutsideReads(ORDERS_KEY);
    DeclinedOutsideReads(PUBLISHABLE_KEY);
    DeclinedOutsideReads(CLI_KEY);
  }

  /** One run accepts it and returns 0; the next quiet one finds nothing decided and returns 1. */
  lemma OutsideDecisionsAreLost(i: Inputs)
    requires Quiet(i)
    ensures var once := RunOf(Some(Join(DeclinedOutside(), "\n") + "\n"), None, i);
            once.exit == Code(0) && RunOf(once.text, once.tfvars, i).exit == Code(1)
  {
    hide SplitLines, Left, CustomBlock, Problems, Join;
    var lines := DeclinedOutside();
    var text := Join(lines, "\n") + "\n";
    DeclinedOutsideBlock();
    DeclinedOutsideBreakFree();
    SplitJoin(lines);
    DeclinedOutsideHolds();
    DeclinedPasses(lines, i);
    QuietRun(text, None, i);
    LeftAgrees(lines, []);
    NothingDecided();
    QuietRun(Left(lines, []), RunOf(Some(text), None, i).tfvars, i);
  }

  lemma NothingDecided()
    ensures Get([], STRIPE_FLAG) == ""
  {
  }
}
