/** What a run of the integrations accepts and writes, in terms of the values read from its file. */
module IntegrationsDecisions {
  import opened Options
  import opened Text
  import opened EnvLines
  import opened EnvSetter
  import opened EnvWriter
  import opened EnvFile
  import opened Integrations
  import opened IntegrationsFixpoint
  import opened IntegrationsRerun

  // ----- problems -----

  /** The part stands somewhere in the value. */
  ghost predicate Holds(value: string, part: string) {
    exists before, after :: value == before + part + after
  }

  lemma ContainsIsHolds(value: string, part: string)
    ensures Contains(value, part) <==> Holds(value, part)
  {
    if i :| 0 <= i <= |value| && OccursAt(value, part, i) {
      assert value == value[..i] + part + value[i + |part|..];
    }
    if before, after :| value == before + part + after {
      assert value[|before|..|before| + |part|] == part;
      assert OccursAt(value, part, |before|);
    }
  }

  predicate IsSecretKey(key: string) {
    key == "STRIPE_SECRET_KEY_USERS" || key == "STRIPE_SECRET_KEY_ORDERS" || key == "STRIPE_CLI_API_KEY"
  }

  predicate IsRequiredKey(key: string) {
    key == "STRIPE_SECRET_KEY_USERS" || key == "STRIPE_SECRET_KEY_ORDERS" || key == "STRIPE_PUBLISHABLE_KEY"
  }

  /** Begins as a test key of its kind does. */
  predicate HasTestPrefix(key: string, value: string) {
    if key == "STRIPE_PUBLISHABLE_KEY" then "pk_test_" <= value else "sk_test_" <= value || "rk_test_" <= value
  }

  lemma {:induction false} EmptyRequiredExactly(lines: seq<string>, keys: seq<string>, p: Problem)
    ensures p in EmptyRequired(lines, keys) <==> p.Empty? && p.key in keys && Get(lines, p.key) == ""
  {
    hide Get;
    if keys != [] { EmptyRequiredExactly(lines, keys[1..], p); }
  }

  lemma {:induction false} BadKeysExactly(lines: seq<string>, keys: seq<string>, p: Problem)
    ensures p in BadKeys(lines, keys) <==> exists k :: 0 <= k < |keys| && p in KeyProblem(keys[k], Get(lines, keys[k]))
  {
    hide Get, KeyProblem;
    if keys != [] {
      BadKeysExactly(lines, keys[1..], p);
      if k :| 0 <= k < |keys| && p in KeyProblem(keys[k], Get(lines, keys[k])) && k > 0 {
        assert keys[1..][k - 1] == keys[k];
      }
      if k :| 0 <= k < |keys[1..]| && p in KeyProblem(keys[1..][k], Get(lines, keys[1..][k])) {
        assert keys[k + 1] == keys[1..][k];
      }
    }
  }

  lemma KeyProblemExactly(key: string, value: string, p: Problem)
    ensures p in KeyProblem(key, value) <==>
            && p.key == key && value != ""
            && match p
               case Empty(_) => false
               case Live(_) => Holds(value, "_live_")
               case BadPrefix(_) => !Holds(value, "_live_") && !HasTestPrefix(key, value)
  {
    hide Contains, Holds;
    ContainsIsHolds(value, "_live_");
  }

  /** The problems of a file, each exactly when the values read have it. */
  lemma ProblemsAreExact(lines: seq<string>, p: Problem)
    ensures p in Problems(lines) <==>
            var value := Get(lines, p.key);
            match p
            case Empty(key) =>
              && value == ""
              && ((Get(lines, "STRIPE_ENABLED") == "true" && IsRequiredKey(key)) ||
                  (Get(lines, "GEOAPIFY_ENABLED") == "true" && key == "GEOAPIFY_API_KEY"))
            case Live(key) => (IsSecretKey(key) || key == "STRIPE_PUBLISHABLE_KEY") && Holds(value, "_live_")
            case BadPrefix(key) =>
              && (IsSecretKey(key) || key == "STRIPE_PUBLISHABLE_KEY")
              && value != "" && !Holds(value, "_live_") && !HasTestPrefix(key, value)
  {
    hide Get, KeyProblem, Holds, HasTestPrefix, EmptyRequired, BadKeys;
    EmptyRequiredExactly(lines, REQUIRED, p);
    BadKeysExactly(lines, CHECKED, p);
    forall k | 0 <= k < |CHECKED|
      ensures p in KeyProblem(CHECKED[k], Get(lines, CHECKED[k])) ==> p.key == CHECKED[k]
    {
      KeyProblemExactly(CHECKED[k], Get(lines, CHECKED[k]), p);
    }
    KeyProblemExactly(p.key, Get(lines, p.key), p);
    EmptyHoldsNothing();
    CheckedKeys(p.key);
  }

  lemma EmptyHoldsNothing()
    ensures !Holds("", "_live_")
  {
  }

  lemma CheckedKeys(key: string)
    ensures key in REQUIRED <==> IsRequiredKey(key)
    ensures (exists k :: 0 <= k < |CHECKED| && CHECKED[k] == key) <==>
            IsSecretKey(key) || key == "STRIPE_PUBLISHABLE_KEY"
  {
    assert CHECKED[0] == "STRIPE_SECRET_KEY_USERS" && CHECKED[1] == "STRIPE_SECRET_KEY_ORDERS";
    assert CHECKED[2] == "STRIPE_CLI_API_KEY" && CHECKED[3] == "STRIPE_PUBLISHABLE_KEY";
  }

  /** Empty, or a test key: no part of it says live, and it begins as it should. */
  ghost predicate IsTestKey(key: string, value: string) {
    value == "" || (!Holds(value, "_live_") && HasTestPrefix(key, value))
  }

  /** Everything a file must say for a run to go on with it. */
  ghost predicate Acceptable(lines: seq<string>) {
    && (Get(lines, "STRIPE_ENABLED") == "true" ==>
          && Get(lines, "STRIPE_SECRET_KEY_USERS") != "" && Get(lines, "STRIPE_SECRET_KEY_ORDERS") != ""
          && Get(lines, "STRIPE_PUBLISHABLE_KEY") != "")
    && (Get(lines, "GEOAPIFY_ENABLED") == "true" ==> Get(lines, "GEOAPIFY_API_KEY") != "")
    && IsTestKey("STRIPE_SECRET_KEY_USERS", Get(lines, "STRIPE_SECRET_KEY_USERS"))
    && IsTestKey("STRIPE_SECRET_KEY_ORDERS", Get(lines, "STRIPE_SECRET_KEY_ORDERS"))
    && IsTestKey("STRIPE_CLI_API_KEY", Get(lines, "STRIPE_CLI_API_KEY"))
    && IsTestKey("STRIPE_PUBLISHABLE_KEY", Get(lines, "STRIPE_PUBLISHABLE_KEY"))
  }

  /** A file has no problem exactly when it is acceptable. */
  lemma NoProblemExactly(lines: seq<string>)
    ensures Problems(lines) == [] <==> Acceptable(lines)
  {
    hide Get, Problems, Holds, HasTestPrefix;
    var users, orders, cli := "STRIPE_SECRET_KEY_USERS", "STRIPE_SECRET_KEY_ORDERS", "STRIPE_CLI_API_KEY";
    var publishable, geoapify := "STRIPE_PUBLISHABLE_KEY", "GEOAPIFY_API_KEY";
    if Problems(lines) != [] {
      ProblemRefuses(lines, Problems(lines)[0]);
    } else {
      KeyIsFine(lines, users);
      KeyIsFine(lines, orders);
      KeyIsFine(lines, cli);
      KeyIsFine(lines, publishable);
      ProblemsAreExact(lines, Empty(users));
      ProblemsAreExact(lines, Empty(orders));
      ProblemsAreExact(lines, Empty(publishable));
      ProblemsAreExact(lines, Empty(geoapify));
    }
  }

  lemma ProblemRefuses(lines: seq<string>, p: Problem)
    requires p in Problems(lines)
    ensures !Acceptable(lines)
  {
    hide Get, Problems, Holds, HasTestPrefix;
    ProblemsAreExact(lines, p);
    EmptyHoldsNothing();
    if p.Empty? {
      assert p.key == "GEOAPIFY_API_KEY" || IsRequiredKey(p.key);
    } else {
      assert !IsTestKey(p.key, Get(lines, p.key));
    }
  }

  lemma KeyIsFine(lines: seq<string>, key: string)
    requires Problems(lines) == [] && (IsSecretKey(key) || key == "STRIPE_PUBLISHABLE_KEY")
    ensures IsTestKey(key, Get(lines, key))
  {
    hide Get, Problems, Holds, HasTestPrefix, IsSecretKey;
    ProblemsAreExact(lines, Live(key));
    ProblemsAreExact(lines, BadPrefix(key));
  }

  // ----- a run -----

  /** With Stripe on: the CLI is there, and so is every AUTO value, minted or read. */
  predicate HasAuto(lines: seq<string>, i: Inputs) {
    && i.cliOnPath
    && if i.regenerate then
         i.minted.Some? && i.minted.value.0 != "" && i.minted.value.1 != "" && i.minted.value.2 != ""
       else
         && Get(lines, "STRIPE_WEBHOOK_SECRET") != ""
         && Get(lines, "STRIPE_WEBHOOK_URL_TOKEN" + "_USERS") != ""
         && Get(lines, "STRIPE_WEBHOOK_URL_TOKEN" + "_ORDERS") != ""
  }

  /** The tfvars of a file, field by field. */
  function Variables(lines: seq<string>, i: Inputs): TfVars
    requires i.regenerate && Get(lines, "STRIPE_ENABLED") == "true" ==> i.minted.Some?
  {
    var stripe, geoapify := Get(lines, "STRIPE_ENABLED") == "true", Get(lines, "GEOAPIFY_ENABLED") == "true";
    TfVars(
      stripe, geoapify,
      if stripe then Get(lines, "STRIPE_SECRET_KEY_USERS") else "",
      if stripe then Get(lines, "STRIPE_SECRET_KEY_ORDERS") else "",
      if !stripe then "" else if i.regenerate then i.minted.value.0 else Get(lines, "STRIPE_WEBHOOK_SECRET"),
      if !stripe then "" else if i.regenerate then i.minted.value.1
        else Get(lines, "STRIPE_WEBHOOK_URL_TOKEN" + "_USERS"),
      if !stripe then "" else if i.regenerate then i.minted.value.2
        else Get(lines, "STRIPE_WEBHOOK_URL_TOKEN" + "_ORDERS"),
      if stripe then i.cidrs else "",
      if geoapify then Get(lines, "GEOAPIFY_API_KEY") else "disabled")
  }

  lemma FinishesExactly(lines: seq<string>, i: Inputs)
    ensures Finishes(lines, i) <==>
            Problems(lines) == [] && (Get(lines, "STRIPE_ENABLED") == "true" ==> HasAuto(lines, i))
    ensures Finishes(lines, i) ==>
              && (i.regenerate && Get(lines, "STRIPE_ENABLED") == "true" ==> i.minted.Some?)
              && TfVarsOf(lines, AutoOf(lines, i).value, i.cidrs) == Variables(lines, i)
  {
    hide Value, Problems;
    if AutoOf(lines, i).Some? {
      var auto := AutoOf(lines, i).value;
      if auto != [] { FirstEmptyOfThree(auto); }
    }
  }

  lemma FirstEmptyOfThree(auto: Pairs)
    requires |auto| == 3
    ensures FirstEmpty(auto).None? <==> auto[0].1 != "" && auto[1].1 != "" && auto[2].1 != ""
  {
    var second, third := auto[1..], auto[1..][1..];
    assert second[0] == auto[1] && third[0] == auto[2] && third[1..] == [];
    assert FirstEmpty(third).None? <==> auto[2].1 != "";
    assert FirstEmpty(second).None? <==> auto[1].1 != "" && auto[2].1 != "";
  }

  /**
   * A run returns 0 exactly when it settles on a text whose values are acceptable and, with Stripe on, has the CLI and
   * every AUTO value: in particular no key of that text says live. Then it writes these tfvars; else it leaves them
   * alone and the text as settled.
   */
  lemma RunAcceptsExactly(text: Option<string>, tfvars: Option<TfVars>, i: Inputs)
    ensures var (settled, stop) := Settle(text, i);
            var lines, r := SplitLines(settled), RunOf(text, tfvars, i);
            && (r.exit == Code(0) <==>
                && stop.None? && Acceptable(lines)
                && (Get(lines, "STRIPE_ENABLED") == "true" ==> HasAuto(lines, i)))
            && (if r.exit == Code(0)
                then
                  && (i.regenerate && Get(lines, "STRIPE_ENABLED") == "true" ==> i.minted.Some?)
                  && r.tfvars == Some(Variables(lines, i))
                else r.tfvars == tfvars && r.text == Some(settled))
  {
    hide Settle, SplitLines, Finishes, Acceptable, HasAuto, Variables, TfVarsOf, Problems, AutoOf, Get, Finish;
    var (settled, stop) := Settle(text, i);
    var lines := SplitLines(settled);
    NoProblemExactly(lines);
    FinishesExactly(lines, i);
    FinishIs(settled, tfvars, i);
    RefusalChangesNothing(settled, tfvars, i);
  }

  lemma RefusalChangesNothing(text: string, tfvars: Option<TfVars>, i: Inputs)
    ensures var r := Finish(text, tfvars, i); r.exit != Code(0) ==> r.tfvars == tfvars && r.text == Some(text)
  {
    hide Problems, AutoOf, SplitLines, Get, FirstEmpty, FileText, TfVarsOf, CustomBlock, Seeded;
  }

  /** A value minted empty: the one thing the writer refuses. */
  predicate MintedEmpty(lines: seq<string>, i: Inputs) {
    && Get(lines, "STRIPE_ENABLED") == "true" && i.cliOnPath && i.regenerate && i.minted.Some?
    && (i.minted.value.0 == "" || i.minted.value.1 == "" || i.minted.value.2 == "")
  }

  /** A run that does not return 0 returns 1, unless a setting found no box or a value was minted empty. */
  lemma RunRaisesExactly(text: Option<string>, tfvars: Option<TfVars>, i: Inputs)
    ensures var (settled, stop) := Settle(text, i);
            var lines, exit := SplitLines(settled), RunOf(text, tfvars, i).exit;
            && (exit == Raised <==> stop == Some(Raised) || (stop.None? && Acceptable(lines) && MintedEmpty(lines, i)))
            && (exit == Raised || exit == Code(0) || exit == Code(1))
  {
    hide SplitLines, Acceptable, TfVarsOf, Problems, Get, FileText, Seeded, CustomBlock, SetAll, Undecided, FirstEmpty;
    var (settled, stop) := Settle(text, i);
    var lines := SplitLines(settled);
    NoProblemExactly(lines);
    if AutoOf(lines, i).Some? && (Get(lines, "STRIPE_ENABLED") == "true" ==> i.cliOnPath) { AutoIsRefused(lines, i); }
    NoAutoMintsNothing(lines, i);
  }

  lemma NoAutoMintsNothing(lines: seq<string>, i: Inputs)
    ensures MintedEmpty(lines, i) ==> AutoOf(lines, i).Some?
  {
    hide Value;
  }

  lemma AutoIsRefused(lines: seq<string>, i: Inputs)
    requires AutoOf(lines, i).Some? && (Get(lines, "STRIPE_ENABLED") == "true" ==> i.cliOnPath)
    ensures FirstEmpty(AutoOf(lines, i).value).Some? <==> MintedEmpty(lines, i)
  {
    hide Value;
    var auto := AutoOf(lines, i).value;
    if auto != [] { FirstEmptyOfThree(auto); }
  }

  // ----- settling -----

  predicate SwitchedOff(i: Inputs, key: string) {
    (key == "STRIPE_ENABLED" && i.stripeOff) || (key == "GEOAPIFY_ENABLED" && i.geoapifyOff)
  }

  /** Neither true nor false. */
  predicate Open(lines: seq<string>, flag: string) { Get(lines, flag) != "true" && Get(lines, flag) != "false" }

  /** What a prompt that asks about these integrations sets a key to. */
  function Answer(a: Answers, stripe: bool, geoapify: bool, key: string): Option<string> {
    if stripe && key == "STRIPE_ENABLED" then Some(if a.stripe then "true" else "false")
    else if stripe && a.stripe && key == "STRIPE_SECRET_KEY_USERS" then Some(Strip(a.usersKey))
    else if stripe && a.stripe && key == "STRIPE_SECRET_KEY_ORDERS" then Some(Strip(a.ordersKey))
    else if stripe && a.stripe && key == "STRIPE_PUBLISHABLE_KEY" then Some(Strip(a.publishable))
    else if geoapify && key == "GEOAPIFY_ENABLED" then Some(if a.geoapify then "true" else "false")
    else if geoapify && a.geoapify && key == "GEOAPIFY_API_KEY" then Some(Strip(a.geoapifyKey))
    else None
  }

  lemma {:induction false} LastOfDistinct(updates: Pairs, key: string)
    requires DistinctKeys(updates)
    ensures forall k :: 0 <= k < |updates| && updates[k].0 == key ==> LastOf(updates, key) == Some(updates[k].1)
    ensures (forall k :: 0 <= k < |updates| ==> updates[k].0 != key) ==> LastOf(updates, key) == None
  {
    if updates != [] {
      assert forall k :: 0 <= k < |updates[1..]| ==> updates[1..][k] == updates[k + 1];
      LastOfDistinct(updates[1..], key);
    }
  }

  lemma OffsSayExactly(i: Inputs, key: string)
    ensures LastOf(Offs(i), key) == if SwitchedOff(i, key) then Some("false") else None
  {
    FlagsDiffer();
    LastOfDistinct(Offs(i), key);
    if SwitchedOff(i, key) {
      var k := if key == "STRIPE_ENABLED" then 0 else |Offs(i)| - 1;
      assert Offs(i)[k] == (key, "false");
    }
  }

  lemma StripeAnswersSayExactly(a: Answers, key: string)
    ensures LastOf(StripeAnswers(a), key) == Answer(a, true, false, key)
  {
    hide Strip, LastOf;
    SettingNamesDiffer();
    var u := StripeAnswers(a);
    LastOfDistinct(u, key);
    assert u[0].0 == "STRIPE_ENABLED";
    if a.stripe {
      assert u[1].0 == "STRIPE_SECRET_KEY_USERS" && u[2].0 == "STRIPE_SECRET_KEY_ORDERS";
      assert u[3].0 == "STRIPE_PUBLISHABLE_KEY";
    }
  }

  lemma GeoapifyAnswersSayExactly(a: Answers, key: string)
    ensures LastOf(GeoapifyAnswers(a), key) == Answer(a, false, true, key)
  {
    hide Strip, LastOf;
    SettingNamesDiffer();
    var u := GeoapifyAnswers(a);
    LastOfDistinct(u, key);
    assert u[0].0 == "GEOAPIFY_ENABLED";
    if a.geoapify { assert u[1].0 == "GEOAPIFY_API_KEY"; }
  }

  lemma SettingNamesDiffer()
    ensures DistinctKeys(DEFAULTS) && DEFAULTS[0].0 == STRIPE_FLAG && DEFAULTS[1].0 == USERS_KEY
    ensures DEFAULTS[2].0 == ORDERS_KEY && DEFAULTS[3].0 == PUBLISHABLE_KEY
    ensures DEFAULTS[5].0 == GEOAPIFY_FLAG && DEFAULTS[6].0 == GEOAPIFY_KEY
  {
    KeysDiffer();
  }

  lemma UpdatesSayExactly(lines: seq<string>, a: Answers, key: string)
    ensures LastOf(Updates(lines, a), key) == Answer(a, Open(lines, STRIPE_FLAG), Open(lines, GEOAPIFY_FLAG), key)
  {
    hide Strip, Get, StripeAnswers, GeoapifyAnswers;
    SettingNamesDiffer();
    var s: Pairs := if Decided(lines, STRIPE_FLAG) then [] else StripeAnswers(a);
    var g: Pairs := if Decided(lines, GEOAPIFY_FLAG) then [] else GeoapifyAnswers(a);
    LastOfConcat(s, g, key);
    StripeAnswersSayExactly(a, key);
    GeoapifyAnswersSayExactly(a, key);
  }

  /**
   * What a run settles on, key by key: the switches first, then the answers to what is still open; the value of a key
   * set is read back where the CUSTOM box has the last word on it, and every other key reads as before.
   */
  lemma SettleIsExact(text: Option<string>, i: Inputs, key: string)
    requires OneLine(i.answers) && HasBox(SplitLines(Created(text)))
    ensures var before, (settled, stop) := SplitLines(Created(text)), Settle(text, i);
            var flagged := SplitLines(SetAll(Created(text), Offs(i)).0);
            var stripe, geoapify := Open(flagged, "STRIPE_ENABLED"), Open(flagged, "GEOAPIFY_ENABLED");
            var word := LastWord(before, key, START);
            && Value(flagged, key) == (if SwitchedOff(i, key) then Reading(word, "false") else Value(before, key))
            && (if !stripe && !geoapify then stop == None && SplitLines(settled) == flagged
                else if !i.promptAllowed || !i.isTty then stop == Some(Code(1)) && SplitLines(settled) == flagged
                else
                  && stop == None
                  && Value(SplitLines(settled), key) ==
                       match Answer(i.answers, stripe, geoapify, key)
                       case Some(answer) => Reading(word, answer)
                       case None => Value(flagged, key))
  {
    hide SplitLines, LastWord, Value, SetAll, Offs, Updates, Answer, Reading, HasBox, LastOf, OneLine, Created,
      CleanPairs, Get, Held, AllAre;
    var a := Offs(i);
    OffsAreClean(i);
    OffsSayExactly(i, key);
    SetAllFacts(Created(text), a, key);
    var flagged := SetAll(Created(text), a).0;
    UpdatesAreClean(SplitLines(flagged), i.answers);
    UpdatesSayExactly(SplitLines(flagged), i.answers, key);
    SetAllFacts(flagged, Updates(SplitLines(flagged), i.answers), key);
  }

  /** A file without a box is refused as soon as something is to be set in it, and left as it is. */
  lemma NothingToSetInto(text: Option<string>, i: Inputs)
    requires !HasBox(SplitLines(Created(text)))
    ensures var lines := SplitLines(Created(text));
            var asked := Open(lines, "STRIPE_ENABLED") || Open(lines, "GEOAPIFY_ENABLED");
            Settle(text, i) == (
              Created(text),
              if i.stripeOff || i.geoapifyOff then Some(Raised)
              else if !asked then None
              else if i.promptAllowed && i.isTty then Some(Raised) else Some(Code(1)))
  {
    hide SplitLines, HasBox, Created, Get, Strip;
    var lines := SplitLines(Created(text));
    DecidedFlags(lines);
    assert StripeAnswers(i.answers) != [] && GeoapifyAnswers(i.answers) != [];
  }
}
