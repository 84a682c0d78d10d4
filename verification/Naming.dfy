/** The recorder's function names: any title becomes a test name that Python accepts. */
module Naming {
  predicate IsLetterOrDigit(c: char) {
    '0' <= c <= '9' || 'a' <= c <= 'z' || 'A' <= c <= 'Z'
  }

  function SkipOthers(s: string): (r: string)
    ensures |r| <= |s| && (r != "" ==> IsLetterOrDigit(r[0]))
  {
    if s != "" && !IsLetterOrDigit(s[0]) then SkipOthers(s[1..]) else s
  }

  /** Every run of other characters becomes one underscore. */
  function Underscored(s: string): string
    decreases |s|
  {
    if s == "" then ""
    else if IsLetterOrDigit(s[0]) then [s[0]] + Underscored(s[1..])
    else "_" + Underscored(SkipOthers(s[1..]))
  }

  function LeftStripped(s: string): (r: string)
    ensures |r| <= |s|
  {
    if s != "" && s[0] == '_' then LeftStripped(s[1..]) else s
  }

  function RightStripped(s: string): (r: string)
    ensures |r| <= |s|
  {
    if s != "" && s[|s| - 1] == '_' then RightStripped(s[..|s| - 1]) else s
  }

  function LowerChar(c: char): char {
    if 'A' <= c <= 'Z' then ((c as int) + 32) as char else c
  }

  function Lower(s: string): string {
    seq(|s|, i requires 0 <= i < |s| => LowerChar(s[i]))
  }

  function Cleaned(name: string): (r: string)
    ensures r != ""
  {
    var stripped := Lower(RightStripped(LeftStripped(Underscored(name))));
    if stripped == "" then "recorded_flow" else stripped
  }

  /** The source has a third case, for an empty prefix; but every name starts with an empty prefix. */
  function FunctionName(name: string, prefix: string): string {
    if prefix <= Cleaned(name) then Cleaned(name) else prefix + Cleaned(name)
  }

  const PREFIX := "test_"

  // ---- What a good name is ------------------------------------------------------------------------------

  predicate SingleUnderscores(s: string) {
    && (forall c <- s :: IsLetterOrDigit(c) || c == '_')
    && (forall i :: 0 <= i < |s| - 1 ==> s[i] != '_' || s[i + 1] != '_')
  }

  predicate NoUpper(s: string) {
    forall c <- s :: !('A' <= c <= 'Z')
  }

  /** Neither empty nor with an underscore at either end. */
  predicate Bare(s: string) {
    s != "" && s[0] != '_' && s[|s| - 1] != '_'
  }

  /** The keywords of Python (section 2.3.1 of the Python Language Reference) that are in lower case. */
  const KEYWORDS := [
    "and", "as", "assert", "async", "await", "break", "class", "continue", "def", "del", "elif", "else", "except",
    "finally", "for", "from", "global", "if", "import", "in", "is", "lambda", "nonlocal", "not", "or", "pass",
    "raise", "return", "try", "while", "with", "yield"]

  predicate IsDigit(c: char) {
    '0' <= c <= '9'
  }

  predicate IsIdentifier(s: string) {
    s != "" && (forall c <- s :: IsLetterOrDigit(c) || c == '_') && !IsDigit(s[0])
  }

  /** A name Python accepts for a function. */
  predicate IsPythonName(s: string) {
    IsIdentifier(s) && s !in KEYWORDS
  }

  /** Lower-case letters, digits and single underscores, starting with the prefix. */
  predicate IsTestName(s: string) {
    PREFIX <= s && SingleUnderscores(s) && NoUpper(s) && Bare(s)
  }

  lemma {:induction false} UnderscoredIsSingle(s: string)
    ensures SingleUnderscores(Underscored(s))
    ensures s != "" && IsLetterOrDigit(s[0]) ==> Underscored(s) != "" && Underscored(s)[0] == s[0]
    decreases |s|
  {
    if s != "" {
      var rest := if IsLetterOrDigit(s[0]) then s[1..] else SkipOthers(s[1..]);
      UnderscoredIsSingle(rest);
      assert Underscored(s)[1..] == Underscored(rest);
      assert forall i :: 1 <= i < |Underscored(s)| ==> Underscored(s)[i] == Underscored(rest)[i - 1];
      if rest == "" { assert Underscored(rest) == ""; }
    }
  }

  lemma {:induction false} LeftStrippedKeeps(s: string)
    requires SingleUnderscores(s)
    ensures SingleUnderscores(LeftStripped(s))
    ensures LeftStripped(s) != "" ==> LeftStripped(s)[0] != '_'
    decreases |s|
  {
    if s != "" && s[0] == '_' {
      assert forall i :: 0 <= i < |s| - 1 ==> s[1..][i] == s[i + 1];
      LeftStrippedKeeps(s[1..]);
    }
  }

  lemma {:induction false} RightStrippedKeeps(s: string)
    requires SingleUnderscores(s)
    ensures SingleUnderscores(RightStripped(s)) && RightStripped(s) <= s
    ensures RightStripped(s) != "" ==> RightStripped(s)[|RightStripped(s)| - 1] != '_'
    decreases |s|
  {
    if s != "" && s[|s| - 1] == '_' { RightStrippedKeeps(s[..|s| - 1]); }
  }

  lemma LowerKeeps(s: string)
    requires SingleUnderscores(s)
    ensures SingleUnderscores(Lower(s)) && NoUpper(Lower(s)) && |Lower(s)| == |s|
    ensures Bare(s) ==> Bare(Lower(s))
  {
    assert forall i :: 0 <= i < |s| ==> s[i] in s && (Lower(s)[i] == '_' <==> s[i] == '_');
  }

  lemma TailIsSingle(s: string)
    requires s != "" && SingleUnderscores(s)
    ensures SingleUnderscores(s[1..])
    ensures s[0] == '_' && |s| > 1 ==> IsLetterOrDigit(s[1])
    ensures IsLetterOrDigit(s[0]) || s[0] == '_'
  {
    assert s[0] in s;
    assert forall i :: 0 <= i < |s| - 1 ==> s[1..][i] == s[i + 1];
    if |s| > 1 { assert s[1] in s; }
  }

  lemma {:induction false} UnderscoredIsIdentity(s: string)
    requires SingleUnderscores(s)
    ensures Underscored(s) == s
    decreases |s|
  {
    if s != "" {
      TailIsSingle(s);
      UnderscoredIsIdentity(s[1..]);
      assert s[0] == '_' && |s| > 1 ==> s[1..][0] == s[1];
    }
  }

  lemma CleanedIsGood(name: string)
    ensures Bare(Cleaned(name)) && SingleUnderscores(Cleaned(name)) && NoUpper(Cleaned(name))
  {
    var underscored := Underscored(name);
    UnderscoredIsSingle(name);
    LeftStrippedKeeps(underscored);
    RightStrippedKeeps(LeftStripped(underscored));
    LowerKeeps(RightStripped(LeftStripped(underscored)));
  }

  predicate IsWord(s: string) {
    forall c <- s :: 'a' <= c <= 'z'
  }

  lemma EarlyKeywordsAreWords(i: nat)
    requires i < 16
    ensures IsWord(KEYWORDS[i])
  {
  }

  lemma LateKeywordsAreWords(i: nat)
    requires 16 <= i < 32
    ensures IsWord(KEYWORDS[i])
  {
  }

  lemma KeywordsAreWords()
    ensures forall w <- KEYWORDS :: IsWord(w)
  {
    forall i | 0 <= i < 32 ensures IsWord(KEYWORDS[i]) {
      if i < 16 { EarlyKeywordsAreWords(i); } else { LateKeywordsAreWords(i); }
    }
  }

  lemma PrefixedIsPythonName(s: string)
    requires IsTestName(s)
    ensures IsPythonName(s)
  {
    KeywordsAreWords();
    assert s[4] == PREFIX[4] && s[4] in s;
  }

  /** Every title gives a test name, which Python accepts. */
  lemma EveryTitleGivesATestName(name: string)
    ensures IsTestName(FunctionName(name, PREFIX)) && IsPythonName(FunctionName(name, PREFIX))
  {
    CleanedIsGood(name);
    if !(PREFIX <= Cleaned(name)) { PrefixedIsTestName(Cleaned(name)); }
    PrefixedIsPythonName(FunctionName(name, PREFIX));
  }

  lemma PrefixedIsTestName(cleaned: string)
    requires Bare(cleaned) && SingleUnderscores(cleaned) && NoUpper(cleaned)
    ensures IsTestName(PREFIX + cleaned)
  {
    var s := PREFIX + cleaned;
    assert forall i :: 5 <= i < |s| ==> s[i] == cleaned[i - 5];
  }

  /** The names that stay as they are: exactly the test names. In particular a generated name is not changed again. */
  lemma TestNamesStay(s: string)
    ensures FunctionName(s, PREFIX) == s <==> IsTestName(s)
  {
    EveryTitleGivesATestName(s);
    if IsTestName(s) {
      UnderscoredIsIdentity(s);
      assert LeftStripped(s) == s && RightStripped(s) == s;
      assert Lower(s) == s by {
        forall i | 0 <= i < |s| ensures LowerChar(s[i]) == s[i] { assert s[i] in s; }
      }
    }
  }

  lemma FunctionNameIsIdempotent(name: string)
    ensures FunctionName(FunctionName(name, PREFIX), PREFIX) == FunctionName(name, PREFIX)
  {
    EveryTitleGivesATestName(name);
    TestNamesStay(FunctionName(name, PREFIX));
  }

  // ---- What a name keeps ---------------------------------------------------------------------------------

  function Letters(s: string): string {
    if s == "" then "" else (if IsLetterOrDigit(s[0]) then [s[0]] else "") + Letters(s[1..])
  }

  lemma {:induction false} LettersAppend(a: string, b: string)
    ensures Letters(a + b) == Letters(a) + Letters(b)
    decreases |a|
  {
    if a == "" {
      assert a + b == b;
    } else {
      assert (a + b)[0] == a[0] && (a + b)[1..] == a[1..] + b;
      LettersAppend(a[1..], b);
      var head, rest, more := if IsLetterOrDigit(a[0]) then [a[0]] else "", Letters(a[1..]), Letters(b);
      assert head + (rest + more) == head + rest + more;
    }
  }

  lemma {:induction false} SkippingKeepsLetters(s: string)
    ensures Letters(SkipOthers(s)) == Letters(s)
    decreases |s|
  {
    if s != "" && !IsLetterOrDigit(s[0]) { SkippingKeepsLetters(s[1..]); }
  }

  lemma {:induction false} UnderscoringKeepsLetters(s: string)
    ensures Letters(Underscored(s)) == Letters(s)
    decreases |s|
  {
    if s != "" {
      var first := if IsLetterOrDigit(s[0]) then [s[0]] else "_";
      var rest := if IsLetterOrDigit(s[0]) then s[1..] else SkipOthers(s[1..]);
      UnderscoringKeepsLetters(rest);
      SkippingKeepsLetters(s[1..]);
      LettersAppend(first, Underscored(rest));
    }
  }

  lemma {:induction false} LeftStrippingKeepsLetters(s: string)
    ensures Letters(LeftStripped(s)) == Letters(s)
    decreases |s|
  {
    if s != "" && s[0] == '_' { LeftStrippingKeepsLetters(s[1..]); }
  }

  lemma {:induction false} RightStrippingKeepsLetters(s: string)
    ensures Letters(RightStripped(s)) == Letters(s)
    decreases |s|
  {
    if s != "" && s[|s| - 1] == '_' {
      RightStrippingKeepsLetters(s[..|s| - 1]);
      assert s == s[..|s| - 1] + "_";
      LettersAppend(s[..|s| - 1], "_");
    }
  }

  lemma {:induction false} LoweringKeepsLetters(s: string)
    ensures Letters(Lower(s)) == Lower(Letters(s))
    decreases |s|
  {
    if s != "" {
      assert Lower(s)[1..] == Lower(s[1..]);
      LoweringKeepsLetters(s[1..]);
    }
  }

  lemma BareHasLetters(s: string)
    requires s != "" && s[0] != '_' && SingleUnderscores(s)
    ensures Letters(s) != ""
  {
    assert s[0] in s;
  }

  lemma WithLetterIsNotEmpty(s: string)
    requires Letters(s) != ""
    ensures s != ""
  {
  }

  /** Nothing of a title gets lost: its letters and digits, in lower case and in their order, are those of the name. */
  lemma NamesKeepTheLetters(name: string)
    requires Letters(name) != ""
    ensures Letters(Cleaned(name)) == Lower(Letters(name))
  {
    var u := Underscored(name);
    UnderscoringKeepsLetters(name);
    LeftStrippingKeepsLetters(u);
    RightStrippingKeepsLetters(LeftStripped(u));
    LoweringKeepsLetters(RightStripped(LeftStripped(u)));
    WithLetterIsNotEmpty(RightStripped(LeftStripped(u)));
  }

  /** Without any the name is a fixed one. */
  lemma NamesWithoutLetters(name: string)
    requires Letters(name) == ""
    ensures FunctionName(name, PREFIX) == "test_recorded_flow"
  {
    var u := Underscored(name);
    UnderscoringKeepsLetters(name);
    LeftStrippingKeepsLetters(u);
    RightStrippingKeepsLetters(LeftStripped(u));
    UnderscoredIsSingle(name);
    LeftStrippedKeeps(u);
    RightStrippedKeeps(LeftStripped(u));
    var r := RightStripped(LeftStripped(u));
    if r != "" { BareHasLetters(r); }
    assert "test_recorded_flow" == PREFIX + "recorded_flow";
    assert PREFIX[0] == 't' && "recorded_flow"[0] == 'r';
  }

  // ---- Without a prefix -----------------------------------------------------------------------------------

  function SkipLast(s: string): (r: string)
    ensures |r| <= |s| && r <= s && (r != "" ==> IsLetterOrDigit(r[|r| - 1]))
  {
    if s != "" && !IsLetterOrDigit(s[|s| - 1]) then SkipLast(s[..|s| - 1]) else s
  }

  /** The title from its first letter or digit to its last. */
  function Core(name: string): (r: string)
    ensures r != "" ==> IsLetterOrDigit(r[0]) && IsLetterOrDigit(r[|r| - 1])
  {
    SkipLast(SkipOthers(name))
  }

  lemma LeftStrippedCore(name: string)
    ensures LeftStripped(Underscored(name)) == Underscored(SkipOthers(name))
  {
    var rest := SkipOthers(name);
    UnderscoredIsSingle(rest);
    if name != "" && !IsLetterOrDigit(name[0]) {
      assert Underscored(name)[0] == '_' && Underscored(name)[1..] == Underscored(rest);
    }
  }

  lemma {:induction false} SkipBefore(s: string, more: string)
    requires SkipOthers(s) != ""
    ensures SkipOthers(s + more) == SkipOthers(s) + more
    decreases |s|
  {
    assert (s + more)[0] == s[0] && (s + more)[1..] == s[1..] + more;
    if !IsLetterOrDigit(s[0]) { SkipBefore(s[1..], more); }
  }

  lemma {:induction false} SkipsToTheEnd(s: string)
    requires s != "" && IsLetterOrDigit(s[|s| - 1])
    ensures SkipOthers(s) != "" && SkipOthers(s)[|SkipOthers(s)| - 1] == s[|s| - 1]
    decreases |s|
  {
    if !IsLetterOrDigit(s[0]) { SkipsToTheEnd(s[1..]); }
  }

  /** One character more behind text that ends with a letter or digit. */
  lemma {:induction false} UnderscoredLast(s: string, c: char)
    requires s != "" && IsLetterOrDigit(s[|s| - 1]) && !IsLetterOrDigit(c)
    ensures Underscored(s + [c]) == Underscored(s) + "_"
    ensures Underscored(s) != "" && Underscored(s)[|Underscored(s)| - 1] == s[|s| - 1]
    decreases |s|
  {
    var all := s + [c];
    assert all[0] == s[0] && all[1..] == s[1..] + [c];
    if IsLetterOrDigit(s[0]) {
      if |s| > 1 { UnderscoredLast(s[1..], c); } else { assert all[1..] == [c] && Underscored([c]) == "_"; }
    } else {
      SkipsToTheEnd(s[1..]);
      SkipBefore(s[1..], [c]);
      UnderscoredLast(SkipOthers(s[1..]), c);
    }
  }

  /** A second character that is no letter or digit adds nothing. */
  lemma {:induction false} UnderscoredAgain(s: string, c: char)
    requires s != "" && !IsLetterOrDigit(s[|s| - 1]) && !IsLetterOrDigit(c)
    ensures Underscored(s + [c]) == Underscored(s)
    decreases |s|
  {
    var all := s + [c];
    assert all[0] == s[0] && all[1..] == s[1..] + [c];
    if IsLetterOrDigit(s[0]) {
      UnderscoredAgain(s[1..], c);
    } else {
      var rest := SkipOthers(s[1..]);
      if rest != "" {
        SkipBefore(s[1..], [c]);
        SkippedEnd(s[1..]);
        UnderscoredAgain(rest, c);
      } else {
        SkippedAll(s[1..], c);
      }
    }
  }

  lemma {:induction false} SkippedEnd(s: string)
    requires SkipOthers(s) != ""
    ensures SkipOthers(s)[|SkipOthers(s)| - 1] == s[|s| - 1]
    decreases |s|
  {
    if !IsLetterOrDigit(s[0]) { SkippedEnd(s[1..]); }
  }

  lemma {:induction false} SkippedAll(s: string, c: char)
    requires SkipOthers(s) == "" && !IsLetterOrDigit(c)
    ensures SkipOthers(s + [c]) == ""
    decreases |s|
  {
    if s != "" {
      assert (s + [c])[0] == s[0] && (s + [c])[1..] == s[1..] + [c];
      SkippedAll(s[1..], c);
    } else {
      assert s + [c] == [c] && [c][1..] == "";
    }
  }

  /** Characters behind the last letter or digit leave nothing but an underscore, which is stripped. */
  lemma {:induction false} RightStrippedCore(s: string)
    requires s == "" || IsLetterOrDigit(s[0])
    ensures RightStripped(Underscored(s)) == Underscored(SkipLast(s))
    decreases |s|
  {
    if s != "" {
      var front, last := s[..|s| - 1], s[|s| - 1];
      assert s == front + [last];
      if IsLetterOrDigit(last) {
        UnderscoredLast(s, ' ');
      } else {
        RightStrippedCore(front);
        if IsLetterOrDigit(front[|front| - 1]) {
          UnderscoredLast(front, last);
          assert (Underscored(front) + "_")[..|Underscored(front)|] == Underscored(front);
        } else {
          UnderscoredAgain(front, last);
        }
      }
    }
  }

  lemma CleanedIsTheCore(name: string)
    ensures Cleaned(name) == if Core(name) == "" then "recorded_flow" else Lower(Underscored(Core(name)))
  {
    LeftStrippedCore(name);
    RightStrippedCore(SkipOthers(name));
    UnderscoredIsSingle(Core(name));
  }

  lemma {:induction false} UnderscoredWord(s: string)
    ensures (forall c <- s :: IsLetterOrDigit(c)) ==> Underscored(s) == s
    ensures (exists c <- s :: !IsLetterOrDigit(c)) ==> '_' in Underscored(s)
    decreases |s|
  {
    if s != "" {
      UnderscoredWord(s[1..]);
      assert s == [s[0]] + s[1..];
      assert IsLetterOrDigit(s[0]) ==> Underscored(s) == [s[0]] + Underscored(s[1..]);
      assert !IsLetterOrDigit(s[0]) ==> Underscored(s)[0] == '_';
    }
  }

  lemma WordsAreTheirCore(s: string, words: seq<string>)
    requires forall w <- words :: IsWord(w)
    ensures Lower(Underscored(s)) in words <==> Lower(s) in words
  {
    UnderscoredWord(s);
    if c :| c in s && !IsLetterOrDigit(c) {
      var i :| 0 <= i < |s| && s[i] == c;
      var j :| 0 <= j < |Underscored(s)| && Underscored(s)[j] == '_';
      assert Lower(s)[i] in Lower(s) && Lower(Underscored(s))[j] in Lower(Underscored(s));
    }
  }

  lemma StartOfCleaned(name: string)
    ensures Cleaned(name)[0] == if Core(name) == "" then 'r' else LowerChar(Core(name)[0])
  {
    CleanedIsTheCore(name);
    if Core(name) != "" { StartOfUnderscored(Core(name)); }
  }

  lemma StartOfUnderscored(s: string)
    requires s != "" && IsLetterOrDigit(s[0])
    ensures Underscored(s) != "" && Lower(Underscored(s))[0] == LowerChar(s[0])
  {
  }

  lemma IdentifierByStart(s: string)
    requires Bare(s) && SingleUnderscores(s)
    ensures IsIdentifier(s) <==> !IsDigit(s[0])
  {
  }

  lemma CleanedIsIdentifier(name: string)
    ensures IsIdentifier(Cleaned(name)) <==> Core(name) == "" || !IsDigit(Core(name)[0])
  {
    CleanedIsGood(name);
    IdentifierByStart(Cleaned(name));
    StartOfCleaned(name);
  }

  lemma CleanedOutside(name: string, words: seq<string>)
    requires forall w <- words :: IsWord(w)
    ensures IsIdentifier(Cleaned(name)) && Cleaned(name) !in words <==>
      Core(name) == "" || (!IsDigit(Core(name)[0]) && Lower(Core(name)) !in words)
  {
    CleanedIsIdentifier(name);
    CleanedIsTheCore(name);
    WordsAreTheirCore(Core(name), words);
    assert "recorded_flow" !in words by { assert "recorded_flow"[8] in "recorded_flow"; }
  }

  /**
   With an empty prefix Python accepts the name if and only if the title, but for what stands before
   its first letter or digit and after its last, does not begin with a digit and is no keyword, in
   upper or lower case.
  */
  lemma WithoutPrefix(name: string)
    ensures IsPythonName(FunctionName(name, "")) <==>
      Core(name) == "" || (!IsDigit(Core(name)[0]) && Lower(Core(name)) !in KEYWORDS)
  {
    KeywordsAreWords();
    CleanedOutside(name, KEYWORDS);
    assert FunctionName(name, "") == Cleaned(name);
  }

  /** Two titles without a name: one begins with a digit, the other is a keyword. */
  lemma TitlesWithoutAName()
    ensures !IsPythonName(FunctionName("1 a", "")) && !IsPythonName(FunctionName("Class", ""))
  {
    WithoutPrefix("1 a");
    WithoutPrefix("Class");
    ThisIsItsCore("1 a");
    ThisIsItsCore("Class");
    LowerClass();
  }

  lemma ThisIsItsCore(s: string)
    requires s != "" && IsLetterOrDigit(s[0]) && IsLetterOrDigit(s[|s| - 1])
    ensures Core(s) == s
  {
  }

  lemma LowerClass()
    ensures Lower("Class") in KEYWORDS
  {
    assert Lower("Class") == "class" && KEYWORDS[6] == "class";
  }
}
