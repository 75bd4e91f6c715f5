/** The linter's thresholds and markers, told by what a reader of a file or of a baseline sees. */
module CommentRules {
  import opened Options
  import opened CommentScanner
  import opened CommentBlocks
  import opened CommentChecks
  import opened CommentRatchet

  // ----- generated files -----

  /** The same text but for letter case. */
  predicate SameLetters(text: string, phrase: string, fold: char -> char) {
    |text| == |phrase| && forall k :: 0 <= k < |text| ==> fold(text[k]) == fold(phrase[k])
  }

  predicate IsPhrase(phrase: string) {
    phrase == "Code generated by" || phrase == "DO NOT EDIT" || phrase == "@generated" ||
    phrase == "FROZEN REFERENCE FIXTURE"
  }

  /** At most four characters, a phrase in any letter case, and anything. */
  predicate Carries(line: string, before: string, text: string, after: string, phrase: string, fold: char -> char) {
    line == before + text + after && |before| <= 4 && IsPhrase(phrase) && SameLetters(text, phrase, fold)
  }

  ghost predicate Says(line: string, fold: char -> char) {
    exists before: string, text: string, after: string, phrase: string ::
      Carries(line, before, text, after, phrase, fold)
  }

  lemma MarkedSays(line: string, at: nat, phrase: string, fold: char -> char)
    requires at <= 4 && IsPhrase(phrase) && ReadsAt(line, at, phrase, fold)
    ensures Says(line, fold)
  {
    var before, text, after := line[..at], line[at..at + |phrase|], line[at + |phrase|..];
    assert Carries(line, before, text, after, phrase, fold);
  }

  lemma CarriesIsMarked(line: string, before: string, text: string, after: string, phrase: string, fold: char -> char)
    requires Carries(line, before, text, after, phrase, fold)
    ensures ReadsAt(line, |before|, phrase, fold)
  {
    hide IsPhrase;
    forall k | 0 <= k < |phrase| ensures fold(line[|before| + k]) == fold(phrase[k]) {
      assert line[|before| + k] == text[k];
    }
  }

  lemma PhrasesAreMarkers(phrase: string)
    ensures IsPhrase(phrase) <==> exists m :: 0 <= m < |MARKERS| && MARKERS[m] == phrase
  {
    assert MARKERS[0] == "Code generated by" && MARKERS[1] == "DO NOT EDIT" && MARKERS[2] == "@generated";
    assert MARKERS[3] == "FROZEN REFERENCE FIXTURE";
  }

  lemma MarkedExactly(line: string, fold: char -> char)
    ensures IsMarked(line, fold) <==> Says(line, fold)
  {
    hide ReadsAt, IsPhrase, Carries;
    if at, m :| 0 <= at <= 4 && 0 <= m < |MARKERS| && ReadsAt(line, at, MARKERS[m], fold) {
      PhrasesAreMarkers(MARKERS[m]);
      MarkedSays(line, at, MARKERS[m], fold);
    }
    if before: string, text: string, after: string, phrase: string :|
      Carries(line, before, text, after, phrase, fold) {
      CarriesIsMarked(line, before, text, after, phrase, fold);
      ShortAndListed(line, before, text, after, phrase, fold);
      var m :| 0 <= m < |MARKERS| && MARKERS[m] == phrase;
      assert ReadsAt(line, |before|, MARKERS[m], fold);
    }
  }

  lemma ShortAndListed(line: string, before: string, text: string, after: string, phrase: string, fold: char -> char)
    requires Carries(line, before, text, after, phrase, fold)
    ensures |before| <= 4 && exists m :: 0 <= m < |MARKERS| && MARKERS[m] == phrase
  {
    PhrasesAreMarkers(phrase);
  }

  /** A file is not looked at exactly when one of its first eight lines says it is generated. */
  lemma GeneratedExactly(lines: seq<string>, fold: char -> char)
    ensures IsGenerated(lines, fold) <==> exists i :: 0 <= i < 8 && i < |lines| && Says(lines[i], fold)
  {
    hide IsMarked, Says;
    forall i | 0 <= i < |lines| ensures IsMarked(lines[i], fold) <==> Says(lines[i], fold) {
      MarkedExactly(lines[i], fold);
    }
  }

  // ----- density -----

  /**
   * A file is called too dense exactly when it is long enough and its comment lines pass the allowed share of its
   * lines; the one message names no line and is fingerprinted by the text of all its comments.
   */
  lemma DenseExactly(rules: Rules, lang: Lang, bs: seq<CommentBlock>, count: nat, total: nat)
    ensures var found := DensityRecorded(rules, lang, bs, count, total);
            && (found != [] <==>
                  0 < total && rules.minLines(lang) <= total &&
                  (count as real) > rules.maxDensity(lang) * (total as real))
            && |found| <= 1
            && (found != [] ==>
                  && "density: " <= found[0].0 && Stable(found[0].0) == found[0].0
                  && found[0].1 == rules.hash(AllBodies(bs)))
  {
    var c, t, limit := count as real, total as real, rules.maxDensity(lang);
    if total > 0 { Shares(c, t, limit); }
    assert DENSITY[0] == 'd';
  }

  lemma Shares(c: real, t: real, limit: real)
    requires t > 0.0
    ensures c / t > limit <==> c > limit * t
  {
    assert c == (c / t) * t;
    if c / t > limit { assert (c / t - limit) * t > 0.0; } else { assert (limit - c / t) * t >= 0.0; }
  }

  // ----- older baselines -----

  /** An entry of an older baseline, the message alone, silences just what has that message and no fingerprint. */
  lemma BareSilencesExactly(path: string, message: string, other: string, violation: string, fingerprint: string)
    requires NoColon(path) && NoColon(other) && NoColon(fingerprint)
    ensures EntryKey(path, Bare(message)) == Key(other, violation, fingerprint) <==>
            path == other && Stable(message) == Stable(violation) && fingerprint == ""
  {
    hide Stable, Straddles;
    KeyIsExact(path, message, "", other, violation, fingerprint);
    PlainPathsNeverStraddle(path, Stable(message), other, Stable(violation));
    PlainPathsNeverStraddle(other, Stable(violation), path, Stable(message));
  }
}
