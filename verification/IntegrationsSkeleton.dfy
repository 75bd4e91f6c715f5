/** The file created from nothing, with both integrations declined: accepted, and a fixpoint at once. */
module IntegrationsSkeleton {
  import opened Options
  import opened Text
  import opened EnvLines
  import opened EnvSetter
  import opened EnvWriter
  import opened EnvFile
  import opened Integrations
  import opened IntegrationsFixpoint
  import opened IntegrationsRerun

  lemma FlagNoteStart()
    ensures NoBreak("# Pre-prod only. " + "Each *_ENABLED is " + "true | false; empty means ")
  {
    var a, b, c := "# Pre-prod only. ", "Each *_ENABLED is ", "true | false; empty means ";
    assert NoBreak(a) && NoBreak(b) && NoBreak(c);
    hide NoBreak;
    ConcatNoBreak(a, b);
    ConcatNoBreak(a + b, c);
  }

  lemma FlagNoteIsOneLine()
    ensures NoBreak(FLAG_NOTE)
  {
    var a, d, e := "# Pre-prod only. " + "Each *_ENABLED is " + "true | false; empty means ", "undecided and stops ",
      "make preprod-up.";
    assert NoBreak(d) && NoBreak(e);
    hide NoBreak;
    FlagNoteStart();
    ConcatNoBreak(a, d);
    ConcatNoBreak(a + d, e);
  }

  lemma KeyNoteIsOneLine()
    ensures NoBreak(KEY_NOTE)
  {
    var a, b, c := "# Test keys only — ", "any *_live_ key is ", "refused.";
    assert NoBreak(a) && NoBreak(b) && NoBreak(c);
    hide NoBreak;
    ConcatNoBreak(a, b);
    ConcatNoBreak(a + b, c);
  }

  lemma ScopeNoteStart()
    ensures NoBreak("# Users' restricted key " + "(PaymentIntents: None) ")
  {
    assert NoBreak("# Users' restricted key ") && NoBreak("(PaymentIntents: None) ");
    hide NoBreak;
    ConcatNoBreak("# Users' restricted key ", "(PaymentIntents: None) ");
  }

  lemma ScopeNoteIsOneLine()
    ensures NoBreak(SCOPE_NOTE)
  {
    var a, b, c, d, e := "# Users' restricted key ", "(PaymentIntents: None) ", "and Orders' (PaymentIntents: ",
      "Write); one sk_test_ in ", "both works too.";
    assert NoBreak(c) && NoBreak(d) && NoBreak(e);
    hide NoBreak;
    ScopeNoteStart();
    ConcatNoBreak(a + b, c);
    ConcatNoBreak(a + b + c, d);
    ConcatNoBreak(a + b + c + d, e);
  }

  lemma CliNoteStart()
    ensures NoBreak("# Optional. Empty = your " + "`stripe login` session, ")
  {
    assert NoBreak("# Optional. Empty = your ") && NoBreak("`stripe login` session, ");
    hide NoBreak;
    ConcatNoBreak("# Optional. Empty = your ", "`stripe login` session, ");
  }

  lemma CliNoteIsOneLine()
    ensures NoBreak(CLI_NOTE)
  {
    var a, b, c, d := "# Optional. Empty = your ", "`stripe login` session, ", "which must be the SAME ",
      "sandbox as the keys above.";
    assert NoBreak(c) && NoBreak(d);
    hide NoBreak;
    CliNoteStart();
    ConcatNoBreak(a + b, c);
    ConcatNoBreak(a + b + c, d);
  }

  /** A comment that is no marker. */
  predicate IsNote(line: string) {
    |line| > 2 && line[0] == '#' && line[2] != '>' && line[2] != '<'
  }

  lemma NotesAreNotes()
    ensures IsNote(FLAG_NOTE) && IsNote(KEY_NOTE) && IsNote(SCOPE_NOTE) && IsNote(CLI_NOTE)
  {
    assert FLAG_NOTE[0] == '#' && FLAG_NOTE[2] == 'P';
    assert KEY_NOTE[0] == '#' && KEY_NOTE[2] == 'T';
    assert SCOPE_NOTE[0] == '#' && SCOPE_NOTE[2] == 'U';
    assert CLI_NOTE[0] == '#' && CLI_NOTE[2] == 'O';
  }

  lemma NoteIsOwned(line: string)
    requires IsNote(line)
    ensures !IsBegin(line) && !IsEnd(line) && !IsBlank(line)
  {
    assert CUSTOM_BEGIN[2] == '>' && CUSTOM_END[2] == '<';
    NonSpaceIsNotBlank(line, 0);
  }

  /** A note, or a key with nothing assigned to it. */
  predicate IsEmptyLine(line: string) {
    IsNote(line) || (exists k :: 0 <= k < |DEFAULTS| && line == Assign(DEFAULTS[k].0, ""))
  }

  lemma EmptyLineIsOwned(line: string, key: string)
    requires IsEmptyLine(line)
    ensures !IsBegin(line) && !IsEnd(line) && !IsBlank(line)
    ensures Value([line], key).None? || Value([line], key) == Some("")
  {
    hide Value, WellKeyed, KeyOf, Strip, Unquote, IsBegin, IsEnd, IsBlank;
    ValueOne(line, key);
    if IsNote(line) {
      NoteIsOwned(line);
      CommentIsInactive(line);
    } else {
      DefaultsAreClean();
      var k :| 0 <= k < |DEFAULTS| && line == Assign(DEFAULTS[k].0, "");
      AssignIsKeyLine(DEFAULTS[k].0, "");
      AssignIsActive(DEFAULTS[k].0, "");
      NothingStripped();
    }
  }

  lemma NothingStripped()
    ensures Unquote(Strip("")) == ""
  {
  }

  lemma {:induction false} EmptyLinesSayNothing(lines: seq<string>, key: string)
    requires forall i :: 0 <= i < |lines| ==> IsEmptyLine(lines[i])
    ensures Get(lines, key) == ""
  {
    hide IsEmptyLine, Value;
    if lines == [] {
      NothingIsRead(key);
    } else {
      EmptyLineIsOwned(lines[0], key);
      EmptyLinesSayNothing(lines[1..], key);
      ValueConcat([lines[0]], lines[1..], key);
      assert lines == [lines[0]] + lines[1..];
    }
  }

  lemma NothingIsRead(key: string)
    ensures Get([], key) == ""
  {
  }

  lemma SkeletonIsEmpty()
    ensures forall i :: 0 <= i < |SKELETON| ==> IsEmptyLine(SKELETON[i])
  {
    hide IsNote;
    NotesAreNotes();
    assert SKELETON[2] == Assign(DEFAULTS[0].0, "") && SKELETON[4] == Assign(DEFAULTS[1].0, "");
    assert SKELETON[5] == Assign(DEFAULTS[2].0, "") && SKELETON[6] == Assign(DEFAULTS[3].0, "");
    assert SKELETON[8] == Assign(DEFAULTS[4].0, "") && SKELETON[9] == Assign(DEFAULTS[5].0, "");
    assert SKELETON[10] == Assign(DEFAULTS[6].0, "");
  }

  lemma SkeletonIsOwned()
    ensures IsOwned(SKELETON)
  {
    hide IsBegin, IsEnd, IsBlank, NoBreak, WellKeyed, IsEmptyLine;
    SkeletonIsEmpty();
    forall i | 0 <= i < |SKELETON| ensures !IsBegin(SKELETON[i]) && !IsEnd(SKELETON[i]) && !IsBlank(SKELETON[i]) {
      EmptyLineIsOwned(SKELETON[i], "");
    }
    SkeletonIsOneLineEach();
  }

  lemma SkeletonIsOneLineEach()
    ensures AllNoBreak(SKELETON)
  {
    hide NoBreak, WellKeyed;
    FlagNoteIsOneLine();
    KeyNoteIsOneLine();
    ScopeNoteIsOneLine();
    CliNoteIsOneLine();
    DefaultsAreClean();
    assert NoBreak(DEFAULTS[0].1);
    AssignBreakFree(DEFAULTS[0].0, "");
    AssignBreakFree(DEFAULTS[1].0, "");
    AssignBreakFree(DEFAULTS[2].0, "");
    AssignBreakFree(DEFAULTS[3].0, "");
    AssignBreakFree(DEFAULTS[4].0, "");
    AssignBreakFree(DEFAULTS[5].0, "");
    AssignBreakFree(DEFAULTS[6].0, "");
  }

  /** The box with both integrations declined: nothing else in it says anything. */
  function Declined(i: Inputs): seq<string> { PutAll(SKELETON, Offs(i)) }

  lemma DeclinedReads(i: Inputs, key: string)
    requires i.stripeOff && i.geoapifyOff
    ensures Get(Declined(i), key) == if key == STRIPE_FLAG || key == GEOAPIFY_FLAG then "false" else ""
  {
    hide Value, PutAll, LastOf, CleanPairs, Strip, Unquote;
    BooleansAreBare();
    SkeletonIsEmpty();
    EmptyLinesSayNothing(SKELETON, key);
    OffsAreClean(i);
    OffsSayOnly(i, key);
    PutAllReads(SKELETON, Offs(i), key);
  }

  lemma OffsSayOnly(i: Inputs, key: string)
    requires i.stripeOff && i.geoapifyOff
    ensures LastOf(Offs(i), key) == if key == STRIPE_FLAG || key == GEOAPIFY_FLAG then Some("false") else None
  {
    var second: Pairs := [(GEOAPIFY_FLAG, "false")];
    assert second[1..] == [];
    assert LastOf(second, key) == if key == GEOAPIFY_FLAG then Some("false") else None;
    assert Offs(i)[1..] == second;
  }

  lemma DeclinedHolds(i: Inputs)
    requires i.stripeOff && i.geoapifyOff
    ensures Undecided(Declined(i)) == [] && Problems(Declined(i)) == []
    ensures !On(Declined(i), STRIPE_FLAG) && !On(Declined(i), GEOAPIFY_FLAG)
  {
    hide Value, Declined;
    FlagsDiffer();
    KeysDiffer();
    assert DEFAULTS[0].0 == STRIPE_FLAG && DEFAULTS[4].0 == CLI_KEY && DEFAULTS[5].0 == GEOAPIFY_FLAG;
    forall k | 0 <= k < |CHECKED| ensures Get(Declined(i), CHECKED[k]) == "" { DeclinedReads(i, CHECKED[k]); }
    DeclinedReads(i, STRIPE_FLAG);
    DeclinedReads(i, GEOAPIFY_FLAG);
    NoKeysNoProblems(Declined(i), CHECKED);
  }

  function DeclinedLines(i: Inputs): seq<string> { FileLines(HEADER, [], Declined(i)) }

  /** The file created and switched off is judged as its box is. */
  lemma DeclinedLinesAgree(i: Inputs)
    ensures Agree(DeclinedLines(i), Declined(i))
  {
    hide Declined, Get, FileLines;
    KeysDiffer();
    assert DEFAULTS[0].0 == STRIPE_FLAG && DEFAULTS[1].0 == USERS_KEY && DEFAULTS[2].0 == ORDERS_KEY;
    assert DEFAULTS[3].0 == PUBLISHABLE_KEY && DEFAULTS[4].0 == CLI_KEY;
    assert DEFAULTS[5].0 == GEOAPIFY_FLAG && DEFAULTS[6].0 == GEOAPIFY_KEY;
    NoAuto();
    forall k | 0 <= k < |DEFAULTS| ensures Same(DeclinedLines(i), Declined(i), DEFAULTS[k].0) {
      WrittenDecision([], [], Declined(i), DEFAULTS[k].0);
    }
    assert Same(DeclinedLines(i), Declined(i), DEFAULTS[0].0) && Same(DeclinedLines(i), Declined(i), DEFAULTS[1].0);
    assert Same(DeclinedLines(i), Declined(i), DEFAULTS[2].0) && Same(DeclinedLines(i), Declined(i), DEFAULTS[3].0);
    assert Same(DeclinedLines(i), Declined(i), DEFAULTS[4].0) && Same(DeclinedLines(i), Declined(i), DEFAULTS[5].0);
    assert Same(DeclinedLines(i), Declined(i), DEFAULTS[6].0);
  }

  lemma NoAuto()
    ensures IsAuto([], []) && CleanPairs([])
  {
  }

  lemma DeclinedSettles(i: Inputs)
    requires i.stripeOff && i.geoapifyOff
    ensures Settle(None, i) == (FileText(HEADER, [], Declined(i)), None)
    ensures SplitLines(FileText(HEADER, [], Declined(i))) == DeclinedLines(i)
    ensures CustomBlock(DeclinedLines(i)) == Declined(i) && IsUnmarked(Declined(i))
  {
    hide Get, Value, FileText, FileLines, SplitLines, SetAll, Offs, Updates, PutAll, CustomBlock, CleanHeader, IsBegin,
      IsEnd, Problems, Undecided, Tight;
    HeaderIsClean();
    CleanHasNoBreak();
    NoAuto();
    SkeletonIsOwned();
    OffsAreClean(i);
    SetAllWritten([], SKELETON, Offs(i));
    FileTextReads(HEADER, [], Declined(i));
    ReadWritten(HEADER, [], Declined(i));
    DeclinedHolds(i);
    DeclinedLinesAgree(i);
    JudgedAlike(DeclinedLines(i), Declined(i));
  }

  lemma DeclinedIsStable(i: Inputs)
    requires i.stripeOff && i.geoapifyOff
    ensures Stable(DeclinedLines(i), []) && Finishes(DeclinedLines(i), i) && AutoOf(DeclinedLines(i), i) == Some([])
  {
    hide Get, Value, FileLines, PutAll, CustomBlock, IsUnmarked, Problems, Undecided, Declined, DeclinedLines;
    DeclinedSettles(i);
    DeclinedHolds(i);
    DeclinedLinesAgree(i);
    JudgedAlike(DeclinedLines(i), Declined(i));
    assert Same(DeclinedLines(i), Declined(i), STRIPE_FLAG) && Same(DeclinedLines(i), Declined(i), GEOAPIFY_FLAG);
  }

  /** With no file yet and both switches given, the first run returns 0, and so does any later one, changing nothing. */
  lemma SkeletonDeclines(tfvars: Option<TfVars>, i: Inputs, j: Inputs)
    requires i.stripeOff && i.geoapifyOff && !j.regenerate
    requires CleanMinted(i) && OneLine(i.answers) && OneLine(j.answers) && SameHost(i, j)
    ensures var once := RunOf(None, tfvars, i);
            once.exit == Code(0) && RunOf(once.text, once.tfvars, j) == once
  {
    hide Settle, Stable, Finishes, AutoOf, DeclinedLines, Declined, FileText, SplitLines, OneLine, CleanMinted, Finish;
    DeclinedSettles(i);
    DeclinedIsStable(i);
    FinishIs(FileText(HEADER, [], Declined(i)), tfvars, i);
    SameSwitchesRepeat(None, tfvars, i, j);
  }
}
