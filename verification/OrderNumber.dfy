/** The customer-facing order number: minted, displayed, and read back however a customer types it. */
module OrderNumber {
  const DIGITS := "0123456789"
  const ALPHABET := DIGITS + "ABCDEFGHJKMNP" + "QRSTVWXYZ"
  const PREFIX_LENGTH := 6
  const SUFFIX_LENGTH := 6
  const TOTAL_LENGTH := PREFIX_LENGTH + SUFFIX_LENGTH
  const SEPARATOR := '-'

  predicate IsSkipped(c: char) { c == SEPARATOR || c == ' ' || c == '\t' }

  predicate AllIn(s: string, alphabet: string) { forall i :: 0 <= i < |s| ==> s[i] in alphabet }

  predicate IsCanonical(s: string) {
    |s| == TOTAL_LENGTH && AllIn(s[..PREFIX_LENGTH], DIGITS) && AllIn(s[PREFIX_LENGTH..], ALPHABET)
  }

  /** What the proofs need of the invariant culture's uppercasing. */
  ghost predicate IsUpper(upper: char -> char) {
    && (forall c :: upper(upper(c)) == upper(c))
    && (forall c :: IsSkipped(upper(c)) <==> IsSkipped(c))
    && (forall c :: c in ALPHABET ==> upper(c) == c)
  }

  // ----- the operations -----

  function Normal(input: string, upper: char -> char): string {
    if input == "" then ""
    else (if IsSkipped(input[0]) then "" else [upper(input[0])]) + Normal(input[1..], upper)
  }

  method Normalize(input: string, upper: char -> char) returns (normalized: string)
    ensures normalized == Normal(input, upper)
  {
    hide Normal, IsSkipped;
    normalized := "";
    assert input[0..] == input;
    for i := 0 to |input|
      invariant normalized + Normal(input[i..], upper) == Normal(input, upper)
    {
      NextNormal(input, i, upper);
      if IsSkipped(input[i]) {
        continue;
      }
      Regrouped(normalized, [upper(input[i])], Normal(input[i + 1..], upper));
      normalized := normalized + [upper(input[i])];
    }
    NextNormal(input, |input|, upper);
  }

  lemma Regrouped(a: string, b: string, c: string)
    ensures a + (b + c) == a + b + c
  {
  }

  lemma NextNormal(input: string, i: nat, upper: char -> char)
    requires i <= |input|
    ensures Normal(input[i..], upper) ==
            if i == |input| then ""
            else (if IsSkipped(input[i]) then "" else [upper(input[i])]) + Normal(input[i + 1..], upper)
  {
    if i < |input| { assert input[i..][1..] == input[i + 1..]; }
  }

  function Format(canonical: string): string {
    if |canonical| == TOTAL_LENGTH
    then canonical[..PREFIX_LENGTH] + [SEPARATOR] + canonical[PREFIX_LENGTH..]
    else canonical
  }

  predicate AreDraws(draws: seq<nat>) {
    |draws| == SUFFIX_LENGTH && forall i :: 0 <= i < |draws| ==> draws[i] < |ALPHABET|
  }

  function Suffix(draws: seq<nat>): (s: string)
    requires AreDraws(draws)
    ensures |s| == SUFFIX_LENGTH
  {
    seq(SUFFIX_LENGTH, i requires 0 <= i < SUFFIX_LENGTH => ALPHABET[draws[i]])
  }

  method RandomSuffix(draws: seq<nat>) returns (suffix: string)
    requires AreDraws(draws)
    ensures suffix == Suffix(draws)
  {
    suffix := "";
    for i := 0 to SUFFIX_LENGTH
      invariant suffix == Suffix(draws)[..i]
    {
      suffix := suffix + [ALPHABET[draws[i]]];
    }
  }

  /** `datePrefix` is the creation instant as six digits. */
  method New(datePrefix: string, draws: seq<nat>) returns (number: string)
    requires |datePrefix| == PREFIX_LENGTH && AllIn(datePrefix, DIGITS) && AreDraws(draws)
    ensures IsCanonical(number) && number == datePrefix + Suffix(draws)
    ensures forall i :: 0 <= i < 6 ==> number[6 + i] == ALPHABET[draws[i]]
  {
    var suffix := RandomSuffix(draws);
    number := datePrefix + suffix;
    forall i | 0 <= i < SUFFIX_LENGTH ensures suffix[i] in ALPHABET { assert suffix[i] == ALPHABET[draws[i]]; }
  }

  // ----- minting -----

  predicate IsIncreasing(s: string) {
    forall i :: 0 <= i < |s| - 1 ==> s[i] < s[i + 1]
  }

  lemma {:induction false} IncreasingIsDistinct(s: string, i: nat, j: nat)
    requires IsIncreasing(s) && i < j < |s|
    ensures s[i] < s[j]
    decreases j - i
  {
    if i + 1 < j { IncreasingIsDistinct(s, i + 1, j); }
  }

  lemma IncreasingConcat(a: string, b: string)
    requires IsIncreasing(a) && IsIncreasing(b) && a != "" && b != "" && a[|a| - 1] < b[0]
    ensures IsIncreasing(a + b)
  {
  }

  lemma AlphabetIsIncreasing()
    ensures IsIncreasing(ALPHABET)
  {
    assert IsIncreasing(DIGITS) && IsIncreasing("ABCDEFGHJKMNP") && IsIncreasing("QRSTVWXYZ");
    IncreasingConcat(DIGITS, "ABCDEFGHJKMNP");
    IncreasingConcat(DIGITS + "ABCDEFGHJKMNP", "QRSTVWXYZ");
  }

  lemma AlphabetIsDistinct(i: nat, j: nat)
    requires i < |ALPHABET| && j < |ALPHABET| && ALPHABET[i] == ALPHABET[j]
    ensures i == j
  {
    hide IsIncreasing;
    AlphabetIsIncreasing();
    if i < j { IncreasingIsDistinct(ALPHABET, i, j); }
    if j < i { IncreasingIsDistinct(ALPHABET, j, i); }
  }

  /** The draws reach every canonical suffix, each from one draw only, so uniform draws give a uniform suffix. */
  lemma SuffixIsBijective(s: string)
    requires |s| == SUFFIX_LENGTH && AllIn(s, ALPHABET)
    ensures exists draws :: AreDraws(draws) && Suffix(draws) == s
    ensures forall a, b :: AreDraws(a) && AreDraws(b) && Suffix(a) == s && Suffix(b) == s ==> a == b
  {
    var draws := seq(SUFFIX_LENGTH, i requires 0 <= i < SUFFIX_LENGTH => IndexOf(s[i], ALPHABET));
    assert AreDraws(draws) && Suffix(draws) == s;
    forall a, b | AreDraws(a) && AreDraws(b) && Suffix(a) == s && Suffix(b) == s ensures a == b {
      forall i | 0 <= i < SUFFIX_LENGTH ensures a[i] == b[i] {
        assert ALPHABET[a[i]] == s[i] == ALPHABET[b[i]];
        AlphabetIsDistinct(a[i], b[i]);
      }
    }
  }

  function IndexOf(c: char, alphabet: string): (k: nat)
    requires c in alphabet
    ensures k < |alphabet| && alphabet[k] == c
  {
    if alphabet[0] == c then 0 else 1 + IndexOf(c, alphabet[1..])
  }

  // ----- normalising -----

  lemma {:induction false} NormalConcat(a: string, b: string, upper: char -> char)
    ensures Normal(a + b, upper) == Normal(a, upper) + Normal(b, upper)
  {
    if a == "" {
      assert a + b == b;
    } else {
      assert (a + b)[1..] == a[1..] + b;
      NormalConcat(a[1..], b, upper);
    }
  }

  lemma NormalOne(c: char, upper: char -> char)
    ensures Normal([c], upper) == if IsSkipped(c) then "" else [upper(c)]
  {
  }

  /** A hyphen, a space or a tab is read past wherever it stands; any other character counts. */
  lemma SkippedExactly(a: string, c: char, b: string, upper: char -> char)
    ensures Normal(a + [c] + b, upper) == Normal(a + b, upper) <==> c == '-' || c == ' ' || c == '\t'
    ensures Normal(a + [c] + b, upper) != Normal(a + b, upper) ==>
              Normal(a + [c] + b, upper) == Normal(a, upper) + [upper(c)] + Normal(b, upper)
  {
    hide Normal;
    NormalOne(c, upper);
    NormalConcat(a + [c], b, upper);
    NormalConcat(a, [c], upper);
    NormalConcat(a, b, upper);
    var whole, without := Normal(a + [c] + b, upper), Normal(a + b, upper);
    assert |whole| == |without| + if IsSkipped(c) then 0 else 1;
    assert IsSkipped(c) ==> Normal(a, upper) + "" + Normal(b, upper) == without;
  }

  /** Displaying a value never changes what it normalises to, whatever its width. */
  lemma FormatIsInvisible(s: string, upper: char -> char)
    ensures Normal(Format(s), upper) == Normal(s, upper)
  {
    if |s| == TOTAL_LENGTH {
      var a, b := s[..PREFIX_LENGTH], s[PREFIX_LENGTH..];
      assert s == a + b && Format(s) == a + ([SEPARATOR] + b);
      NormalOne(SEPARATOR, upper);
      NormalConcat([SEPARATOR], b, upper);
      NormalConcat(a, [SEPARATOR] + b, upper);
      NormalConcat(a, b, upper);
    }
  }

  /** Upper-case, and free of separators. */
  predicate IsFixed(s: string, upper: char -> char) {
    forall i :: 0 <= i < |s| ==> !IsSkipped(s[i]) && upper(s[i]) == s[i]
  }

  lemma {:induction false} FixedIsNormal(s: string, upper: char -> char)
    requires IsFixed(s, upper)
    ensures Normal(s, upper) == s
  {
    if s != "" {
      assert IsFixed(s[1..], upper);
      FixedIsNormal(s[1..], upper);
    }
  }

  lemma FixedPush(c: char, s: string, upper: char -> char)
    requires IsFixed(s, upper) && !IsSkipped(c) && upper(c) == c
    ensures IsFixed([c] + s, upper)
  {
  }

  lemma UpperIs(c: char, upper: char -> char)
    requires IsUpper(upper)
    ensures upper(upper(c)) == upper(c) && (IsSkipped(upper(c)) <==> IsSkipped(c))
  {
  }

  lemma {:induction false} NormalIsFixed(input: string, upper: char -> char)
    requires IsUpper(upper)
    ensures IsFixed(Normal(input, upper), upper)
  {
    hide IsFixed, IsUpper;
    if input == "" {
      NothingIsFixed(upper);
    } else {
      NormalIsFixed(input[1..], upper);
      UpperIs(input[0], upper);
      if IsSkipped(input[0]) {
        assert "" + Normal(input[1..], upper) == Normal(input[1..], upper);
      } else {
        FixedPush(upper(input[0]), Normal(input[1..], upper), upper);
      }
    }
  }

  lemma NothingIsFixed(upper: char -> char)
    ensures IsFixed("", upper)
  {
  }

  lemma NormalIsIdempotent(input: string, upper: char -> char)
    requires IsUpper(upper)
    ensures Normal(Normal(input, upper), upper) == Normal(input, upper)
  {
    NormalIsFixed(input, upper);
    FixedIsNormal(Normal(input, upper), upper);
  }

  lemma AlphabetIsNotSkipped(c: char)
    requires c in ALPHABET
    ensures !IsSkipped(c)
  {
    var i :| 0 <= i < |ALPHABET| && ALPHABET[i] == c;
    assert i < 10 ==> ALPHABET[i] == DIGITS[i];
    assert 10 <= i < 23 ==> ALPHABET[i] == "ABCDEFGHJKMNP"[i - 10];
    assert 23 <= i ==> ALPHABET[i] == "QRSTVWXYZ"[i - 23];
  }

  lemma DigitsAreInAlphabet(c: char)
    requires c in DIGITS
    ensures c in ALPHABET
  {
    var i :| 0 <= i < |DIGITS| && DIGITS[i] == c;
    assert ALPHABET[i] == c;
  }

  /** A stored number, and the displayed form of one, both read back as that number. */
  lemma CanonicalReadsBack(c: string, upper: char -> char)
    requires IsCanonical(c) && IsUpper(upper)
    ensures Normal(c, upper) == c && Normal(Format(c), upper) == c
  {
    forall i | 0 <= i < |c| ensures !IsSkipped(c[i]) && upper(c[i]) == c[i] {
      if i < PREFIX_LENGTH {
        assert c[i] == c[..PREFIX_LENGTH][i];
        DigitsAreInAlphabet(c[i]);
      } else {
        assert c[i] == c[PREFIX_LENGTH..][i - PREFIX_LENGTH];
      }
      AlphabetIsNotSkipped(c[i]);
    }
    FixedIsNormal(c, upper);
    FormatIsInvisible(c, upper);
  }

  /** The display of a number: thirteen characters, a hyphen after the date and no other, and around it the number. */
  lemma FormatIsExact(c: string)
    requires IsCanonical(c)
    ensures var shown := Format(c);
            && |shown| == 13 && shown[6] == '-' && shown[..6] + shown[7..] == c
            && forall i :: 0 <= i < 13 && i != 6 ==> shown[i] != '-' && shown[i] != ' ' && shown[i] != '\t'
  {
    var shown := Format(c);
    assert shown[..6] == c[..6] && shown[7..] == c[6..];
    forall i | 0 <= i < 13 && i != 6 ensures shown[i] != '-' && shown[i] != ' ' && shown[i] != '\t' {
      if i < 6 {
        assert shown[i] == c[..6][i];
        DigitsAreInAlphabet(shown[i]);
      } else {
        assert shown[i] == c[6..][i - 7];
      }
      AlphabetIsNotSkipped(shown[i]);
    }
  }

  /** The suffix alphabet: the digits and the upper-case letters but I, L, O and U. */
  lemma AlphabetIsExact(c: char)
    ensures c in ALPHABET <==>
            '0' <= c <= '9' || ('A' <= c <= 'Z' && c != 'I' && c != 'L' && c != 'O' && c != 'U')
    ensures c in DIGITS <==> '0' <= c <= '9'
    ensures |ALPHABET| == 32
  {
    LettersAre(c);
    DigitsAre(c);
  }

  lemma DigitsAre(c: char)
    ensures c in DIGITS <==> '0' <= c <= '9'
  {
    if '0' <= c <= '9' { assert DIGITS[c as int - '0' as int] == c; }
  }

  lemma LettersAre(c: char)
    ensures c in "ABCDEFGHJKMNP" + "QRSTVWXYZ" <==> 'A' <= c <= 'Z' && c != 'I' && c != 'L' && c != 'O' && c != 'U'
  {
    assert c in "ABCDEFGHJKMNP" + "QRSTVWXYZ" <==> c in "ABCDEFGHJKMNP" || c in "QRSTVWXYZ";
    EarlyLetters(c);
    LateLetters(c);
  }

  lemma EarlyLetters(c: char)
    ensures c in "ABCDEFGHJKMNP" <==> 'A' <= c <= 'P' && c != 'I' && c != 'L' && c != 'O'
  {
    var s := "ABCDEFGHJKMNP";
    var n := c as int - 'A' as int;
    if 'A' <= c <= 'H' { assert s[n] == c; }
    if 'J' <= c <= 'K' { assert s[n - 1] == c; }
    if 'M' <= c <= 'N' { assert s[n - 2] == c; }
    if c == 'P' { assert s[12] == c; }
  }

  lemma LateLetters(c: char)
    ensures c in "QRSTVWXYZ" <==> 'Q' <= c <= 'Z' && c != 'U'
  {
    var s := "QRSTVWXYZ";
    var n := c as int - 'Q' as int;
    if 'Q' <= c <= 'T' { assert s[n] == c; }
    if 'V' <= c <= 'Z' { assert s[n - 1] == c; }
  }

  lemma FormatIsInjective(c: string, d: string, upper: char -> char)
    requires IsCanonical(c) && IsCanonical(d) && IsUpper(upper) && Format(c) == Format(d)
    ensures c == d
  {
    CanonicalReadsBack(c, upper);
    CanonicalReadsBack(d, upper);
  }

  // ----- spellings -----

  ghost predicate Removes(a: string, b: string) {
    exists i :: 0 <= i < |a| && IsSkipped(a[i]) && b == a[..i] + a[i + 1..]
  }

  ghost predicate Recases(a: string, b: string, upper: char -> char) {
    exists i :: 0 <= i < |a| && !IsSkipped(a[i]) &&
      exists c :: upper(c) == upper(a[i]) && b == a[..i] + [c] + a[i + 1..]
  }

  /** One separator put in or taken out, or one character's case changed. */
  ghost predicate OneEdit(a: string, b: string, upper: char -> char) {
    Removes(a, b) || Removes(b, a) || Recases(a, b, upper) || Recases(b, a, upper)
  }

  ghost predicate Reaches(a: string, b: string, n: nat, upper: char -> char)
    decreases n
  {
    if n == 0 then a == b else exists m :: OneEdit(a, m, upper) && Reaches(m, b, n - 1, upper)
  }

  ghost predicate SameSpelling(a: string, b: string, upper: char -> char) {
    exists n: nat :: Reaches(a, b, n, upper)
  }

  lemma RemoveIsInvisible(a: string, b: string, upper: char -> char)
    requires Removes(a, b)
    ensures Normal(a, upper) == Normal(b, upper)
  {
    var i :| 0 <= i < |a| && IsSkipped(a[i]) && b == a[..i] + a[i + 1..];
    assert a == a[..i] + ([a[i]] + a[i + 1..]);
    NormalConcat(a[..i], [a[i]] + a[i + 1..], upper);
    NormalConcat([a[i]], a[i + 1..], upper);
    NormalOne(a[i], upper);
    NormalConcat(a[..i], a[i + 1..], upper);
  }

  lemma SameCaseIsInvisible(done: string, c: char, d: char, rest: string, upper: char -> char)
    requires upper(c) == upper(d) && IsUpper(upper)
    ensures Normal(done + [c] + rest, upper) == Normal(done + [d] + rest, upper)
  {
    hide Normal;
    assert (IsSkipped(c) <==> IsSkipped(upper(c))) && (IsSkipped(d) <==> IsSkipped(upper(d)));
    NormalOne(c, upper);
    NormalOne(d, upper);
    NormalConcat(done, [c], upper);
    NormalConcat(done, [d], upper);
    NormalConcat(done + [c], rest, upper);
    NormalConcat(done + [d], rest, upper);
  }

  lemma RecaseIsInvisible(a: string, b: string, upper: char -> char)
    requires Recases(a, b, upper) && IsUpper(upper)
    ensures Normal(a, upper) == Normal(b, upper)
  {
    hide Normal, IsUpper;
    var i :| 0 <= i < |a| && !IsSkipped(a[i]) && exists c :: upper(c) == upper(a[i]) && b == a[..i] + [c] + a[i + 1..];
    var c :| upper(c) == upper(a[i]) && b == a[..i] + [c] + a[i + 1..];
    assert a == a[..i] + [a[i]] + a[i + 1..];
    SameCaseIsInvisible(a[..i], a[i], c, a[i + 1..], upper);
  }

  lemma EditIsInvisible(a: string, b: string, upper: char -> char)
    requires OneEdit(a, b, upper) && IsUpper(upper)
    ensures Normal(a, upper) == Normal(b, upper)
  {
    hide Removes, Recases, Normal;
    if Removes(a, b) { RemoveIsInvisible(a, b, upper); }
    else if Removes(b, a) { RemoveIsInvisible(b, a, upper); }
    else if Recases(a, b, upper) { RecaseIsInvisible(a, b, upper); }
    else { RecaseIsInvisible(b, a, upper); }
  }

  lemma {:induction false} ReachesIsInvisible(a: string, b: string, n: nat, upper: char -> char)
    requires Reaches(a, b, n, upper) && IsUpper(upper)
    ensures Normal(a, upper) == Normal(b, upper)
    decreases n
  {
    hide OneEdit, Normal;
    if n > 0 {
      var m :| OneEdit(a, m, upper) && Reaches(m, b, n - 1, upper);
      EditIsInvisible(a, m, upper);
      ReachesIsInvisible(m, b, n - 1, upper);
    }
  }

  lemma {:induction false} ReachesOn(a: string, b: string, c: string, n: nat, k: nat, upper: char -> char)
    requires Reaches(a, b, n, upper) && Reaches(b, c, k, upper)
    ensures Reaches(a, c, n + k, upper)
    decreases n
  {
    hide OneEdit;
    if n > 0 {
      var m :| OneEdit(a, m, upper) && Reaches(m, b, n - 1, upper);
      ReachesOn(m, b, c, n - 1, k, upper);
    }
  }

  lemma OneStep(a: string, b: string, upper: char -> char)
    requires OneEdit(a, b, upper)
    ensures Reaches(a, b, 1, upper)
  {
    hide OneEdit;
    assert Reaches(b, b, 0, upper);
  }

  lemma {:induction false} ReachesBack(a: string, b: string, n: nat, upper: char -> char)
    requires Reaches(a, b, n, upper)
    ensures Reaches(b, a, n, upper)
    decreases n
  {
    hide Removes, Recases;
    if n > 0 {
      var m :| OneEdit(a, m, upper) && Reaches(m, b, n - 1, upper);
      ReachesBack(m, b, n - 1, upper);
      assert OneEdit(m, a, upper);
      OneStep(m, a, upper);
      ReachesOn(b, m, a, n - 1, 1, upper);
    }
  }

  lemma DropFirst(done: string, c: char, rest: string, upper: char -> char)
    requires IsSkipped(c)
    ensures Reaches(done + ([c] + rest), done + rest, 1, upper)
  {
    hide Recases;
    var a := done + ([c] + rest);
    assert a[..|done|] == done && a[|done| + 1..] == rest && a[|done|] == c;
    assert Removes(a, done + rest);
    EditRemoves(a, done + rest, upper);
  }

  lemma RaiseFirst(done: string, c: char, rest: string, upper: char -> char)
    requires !IsSkipped(c) && IsUpper(upper)
    ensures Reaches(done + ([c] + rest), done + [upper(c)] + rest, 1, upper)
  {
    hide Removes, IsUpper;
    var a, b := done + ([c] + rest), done + [upper(c)] + rest;
    assert a[..|done|] == done && a[|done| + 1..] == rest && a[|done|] == c;
    UpperIs(c, upper);
    assert Recases(a, b, upper);
    EditRecases(a, b, upper);
  }

  /** Editing the characters after `done` one by one turns them into their normal form. */
  lemma {:induction false} EditsToNormal(done: string, input: string, upper: char -> char) returns (n: nat)
    requires IsUpper(upper)
    ensures Reaches(done + input, done + Normal(input, upper), n, upper)
    decreases |input|
  {
    hide Reaches, IsUpper;
    if input == "" {
      n := 0;
      ReachesItself(done + input, upper);
    } else {
      var c, rest := input[0], input[1..];
      assert input == [c] + rest;
      if IsSkipped(c) {
        DropFirst(done, c, rest, upper);
        n := EditsToNormal(done, rest, upper);
        assert Normal(input, upper) == Normal(rest, upper);
        ReachesOn(done + input, done + rest, done + Normal(input, upper), 1, n, upper);
      } else {
        RaiseFirst(done, c, rest, upper);
        n := EditsToNormal(done + [upper(c)], rest, upper);
        assert done + [upper(c)] + Normal(rest, upper) == done + Normal(input, upper);
        ReachesOn(done + input, done + [upper(c)] + rest, done + Normal(input, upper), 1, n, upper);
      }
      n := n + 1;
    }
  }

  lemma ReachesItself(a: string, upper: char -> char)
    ensures Reaches(a, a, 0, upper)
  {
  }

  lemma EditRemoves(a: string, b: string, upper: char -> char)
    requires Removes(a, b)
    ensures Reaches(a, b, 1, upper)
  {
    hide Removes, Recases;
    OneStep(a, b, upper);
  }

  lemma EditRecases(a: string, b: string, upper: char -> char)
    requires Recases(a, b, upper)
    ensures Reaches(a, b, 1, upper)
  {
    hide Removes, Recases;
    OneStep(a, b, upper);
  }

  /** Two inputs normalise alike exactly when separators and letter case are all that tells them apart. */
  lemma NormalIsExact(a: string, b: string, upper: char -> char)
    requires IsUpper(upper)
    ensures Normal(a, upper) == Normal(b, upper) <==> SameSpelling(a, b, upper)
  {
    hide Reaches, Normal;
    if SameSpelling(a, b, upper) {
      var n: nat :| Reaches(a, b, n, upper);
      ReachesIsInvisible(a, b, n, upper);
    }
    if Normal(a, upper) == Normal(b, upper) {
      var n := EditsToNormal("", a, upper);
      var k := EditsToNormal("", b, upper);
      assert "" + a == a && "" + b == b && "" + Normal(a, upper) == Normal(a, upper);
      ReachesBack(b, Normal(b, upper), k, upper);
      ReachesOn(a, Normal(a, upper), b, n, k, upper);
    }
  }

  /** An input finds an order exactly when it spells the order's stored number. */
  lemma LookupIsExact(input: string, c: string, upper: char -> char)
    requires IsCanonical(c) && IsUpper(upper)
    ensures Normal(input, upper) == c <==> SameSpelling(input, c, upper)
  {
    hide Normal, SameSpelling, IsCanonical;
    CanonicalReadsBack(c, upper);
    NormalIsExact(input, c, upper);
  }
}
