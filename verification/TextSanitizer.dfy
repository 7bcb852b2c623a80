/** The text sanitiser of the onboarding session: control characters and angle brackets become
    blanks, runs of white space become one blank, the ends are trimmed, and then the text is cut.

    Text is a sequence of UTF-16 code units, as the cut counts them. */
module TextSanitizer {
  import opened Whitespace

  type CodeUnit = x: int | 0 <= x < 0x10000

  type Text = seq<CodeUnit>

  const BLANK: CodeUnit := 32

  function Neutral(c: CodeUnit): CodeUnit {
    if c <= 31 || c == 127 || c == 60 || c == 62 then BLANK else c
  }

  function Neutralised(s: Text): (r: Text)
    ensures |r| == |s|
  {
    seq(|s|, i requires 0 <= i < |s| => Neutral(s[i]))
  }

  /** Every run of white space becomes one blank. */
  function Collapsed(s: Text): Text {
    if s == [] then []
    else
      var init, last := Collapsed(s[..|s| - 1]), s[|s| - 1];
      if !IsSpace(last) then init + [last]
      else if init != [] && init[|init| - 1] == BLANK then init
      else init + [BLANK]
  }

  function TrimLeft(s: Text): Text {
    if s != [] && IsSpace(s[0]) then TrimLeft(s[1..]) else s
  }

  function TrimRight(s: Text): Text {
    if s != [] && IsSpace(s[|s| - 1]) then TrimRight(s[..|s| - 1]) else s
  }

  function Trimmed(s: Text): Text {
    TrimRight(TrimLeft(s))
  }

  function Cut(s: Text, maxLength: nat): Text {
    if |s| <= maxLength then s else s[..maxLength]
  }

  /** The text before it is cut. */
  function Normal(s: Text): Text {
    Trimmed(Collapsed(Neutralised(s)))
  }

  function SafeText(s: Text, maxLength: nat): Text {
    Cut(Normal(s), maxLength)
  }

  // ---------------------------------------------------------------- tidy text

  /** Control characters, angle brackets and white space separate words. */
  predicate Separates(c: CodeUnit) {
    c < 0x20 || c == 0x7F || c == 0x3C || c == 0x3E || IsSpace(c)
  }

  /** The only separators are blanks. */
  predicate Harmless(s: Text) {
    forall i :: 0 <= i < |s| ==> Separates(s[i]) ==> s[i] == BLANK
  }

  predicate NoDoubleBlank(s: Text) {
    forall i :: 0 < i < |s| ==> !(s[i - 1] == BLANK && s[i] == BLANK)
  }

  /** What one pass leaves: harmless text without double or leading blanks. */
  predicate Tidy(s: Text) {
    Harmless(s) && NoDoubleBlank(s) && (s != [] ==> s[0] != BLANK)
  }

  /** What two passes leave: tidy text without a blank at its end either. */
  predicate Clean(s: Text) {
    Tidy(s) && (s != [] ==> s[|s| - 1] != BLANK)
  }

  /** Collapsing neutral text makes it harmless and leaves no double blank. */
  lemma {:induction false} CollapsedIsHarmless(s: Text)
    requires forall i :: 0 <= i < |s| ==> Neutral(s[i]) == s[i]
    ensures Harmless(Collapsed(s)) && NoDoubleBlank(Collapsed(s))
  {
    if s != [] {
      CollapsedIsHarmless(s[..|s| - 1]);
    }
  }

  lemma {:induction false} TrimLeftKeeps(s: Text)
    requires Harmless(s) && NoDoubleBlank(s)
    ensures Tidy(TrimLeft(s))
  {
    if s != [] && IsSpace(s[0]) {
      assert NoDoubleBlank(s[1..]) by {
        forall i | 0 < i < |s| - 1 ensures !(s[1..][i - 1] == BLANK && s[1..][i] == BLANK) {
          assert s[1..][i - 1] == s[i] && s[1..][i] == s[i + 1];
        }
      }
      TrimLeftKeeps(s[1..]);
    }
  }

  lemma {:induction false} TrimRightKeeps(s: Text)
    requires Tidy(s)
    ensures Clean(TrimRight(s))
  {
    if s != [] && IsSpace(s[|s| - 1]) {
      assert Tidy(s[..|s| - 1]);
      TrimRightKeeps(s[..|s| - 1]);
    }
  }

  lemma NormalIsClean(s: Text)
    ensures Clean(Normal(s))
  {
    CollapsedIsHarmless(Neutralised(s));
    TrimLeftKeeps(Collapsed(Neutralised(s)));
    TrimRightKeeps(TrimLeft(Collapsed(Neutralised(s))));
  }

  lemma SafeTextIsTidy(s: Text, maxLength: nat)
    ensures Tidy(SafeText(s, maxLength)) && |SafeText(s, maxLength)| <= maxLength
  {
    NormalIsClean(s);
  }

  lemma {:induction false} TidyCollapses(s: Text)
    requires Tidy(s)
    ensures Collapsed(s) == s
  {
    if s != [] {
      var init := s[..|s| - 1];
      assert Tidy(init);
      TidyCollapses(init);
      assert s == init + [s[|s| - 1]];
    }
  }

  /** Tidy text, without the blank that a cut may have left at its end. */
  function WithoutLastBlank(s: Text): Text {
    if s != [] && s[|s| - 1] == BLANK then s[..|s| - 1] else s
  }

  /** On tidy text of fitting length a pass does nothing but drop a blank at the end. */
  lemma PassOnTidy(s: Text, maxLength: nat)
    requires Tidy(s) && |s| <= maxLength
    ensures SafeText(s, maxLength) == WithoutLastBlank(s)
    ensures Clean(SafeText(s, maxLength))
  {
    assert Neutralised(s) == s;
    TidyCollapses(s);
    assert TrimLeft(s) == s;
    var t := WithoutLastBlank(s);
    assert Clean(t) by {
      if |s| > 1 && s[|s| - 1] == BLANK {
        assert s[|s| - 2] != BLANK;
      }
    }
    assert TrimRight(t) == t;
    assert TrimRight(s) == t;
  }

  lemma PassOnClean(s: Text, maxLength: nat)
    requires Clean(s) && |s| <= maxLength
    ensures SafeText(s, maxLength) == s
  {
    PassOnTidy(s, maxLength);
  }

  /** Two passes settle a text, and one pass does unless the cut falls right after a blank. */
  lemma TwoPassesSettle(s: Text, maxLength: nat)
    ensures
      var once := SafeText(s, maxLength);
      var twice := SafeText(once, maxLength);
      && SafeText(twice, maxLength) == twice
      && (twice == once <==> |Normal(s)| <= maxLength || maxLength == 0 || Normal(s)[maxLength - 1] != BLANK)
  {
    var once := SafeText(s, maxLength);
    NormalIsClean(s);
    SafeTextIsTidy(s, maxLength);
    PassOnTidy(once, maxLength);
    PassOnClean(SafeText(once, maxLength), maxLength);
  }

  // ---------------------------------------------------------------- the words stay

  /** The letters of a text in order, each with whether a word begins with it. */
  function Words(s: Text): seq<(bool, CodeUnit)> {
    if s == [] then []
    else
      var n := |s| - 1;
      if Separates(s[n]) then Words(s[..n]) else Words(s[..n]) + [(n == 0 || Separates(s[n - 1]), s[n])]
  }

  lemma {:induction false} WordsNeutralised(s: Text)
    ensures Words(Neutralised(s)) == Words(s)
  {
    if s != [] {
      var n := |s| - 1;
      WordsNeutralised(s[..n]);
      assert Neutralised(s)[..n] == Neutralised(s[..n]);
    }
  }

  lemma {:induction false} WordsCollapsed(s: Text)
    requires forall i :: 0 <= i < |s| ==> Neutral(s[i]) == s[i]
    ensures Words(Collapsed(s)) == Words(s)
    ensures
      var c := Collapsed(s);
      (c == [] <==> s == []) && (s != [] ==> Separates(c[|c| - 1]) == Separates(s[|s| - 1]))
  {
    if s != [] {
      var n := |s| - 1;
      WordsCollapsed(s[..n]);
      var init, c := Collapsed(s[..n]), Collapsed(s);
      CollapsedIsHarmless(s[..n]);
      if c != init { assert c[..|c| - 1] == init; }
    }
  }

  lemma {:induction false} WordsTrimLeft(s: Text)
    ensures Words(TrimLeft(s)) == Words(s)
  {
    if s != [] && IsSpace(s[0]) {
      WordsWithoutFirst(s);
      WordsTrimLeft(s[1..]);
    }
  }

  lemma {:induction false} WordsWithoutFirst(s: Text)
    requires s != [] && Separates(s[0])
    ensures Words(s[1..]) == Words(s)
  {
    if |s| > 1 {
      var n := |s| - 1;
      WordsWithoutFirst(s[..n]);
      assert s[..n][1..] == s[1..][..n - 1];
    }
  }

  lemma {:induction false} WordsTrimRight(s: Text)
    ensures Words(TrimRight(s)) == Words(s)
  {
    if s != [] && IsSpace(s[|s| - 1]) {
      WordsTrimRight(s[..|s| - 1]);
    }
  }

  /** A text without its last letter, and without the blank before that. */
  function BeforeLast(s: Text): Text
    requires s != []
  {
    WithoutLastBlank(s[..|s| - 1])
  }

  /** A clean text ends with the last letter of its words, after a blank if a word begins there. */
  lemma LastLetter(s: Text)
    requires Clean(s) && s != []
    ensures
      var t, letter := BeforeLast(s), s[|s| - 1];
      var begins := |s| == 1 || s[|s| - 2] == BLANK;
      && Clean(t) && |t| < |s| && Words(s) == Words(t) + [(begins, letter)]
      && s == (if begins && t != [] then t + [BLANK] else t) + [letter]
  {
    var n := |s| - 1;
    if n > 0 && s[n - 1] == BLANK {
      assert n > 1 && s[n - 2] != BLANK;
      assert s[..n][..n - 1] == s[..n - 1];
      assert s == s[..n - 1] + [BLANK] + [s[n]];
    } else {
      assert s == s[..n] + [s[n]];
    }
  }

  /** A clean text is told by its words. */
  lemma {:induction false} CleanIsItsWords(s: Text, t: Text)
    requires Clean(s) && Clean(t) && Words(s) == Words(t)
    ensures s == t
    decreases |s|
  {
    if s != [] && t != [] {
      LastLetter(s);
      LastLetter(t);
      var last := |Words(s)| - 1;
      assert Words(s)[last] == Words(t)[last] && Words(s)[..last] == Words(t)[..last];
      CleanIsItsWords(BeforeLast(s), BeforeLast(t));
    }
  }

  /** Before it is cut, a text becomes the one clean text that has its words. */
  lemma NormalIff(s: Text, t: Text)
    ensures Normal(s) == t <==> Clean(t) && Words(t) == Words(s)
  {
    NormalIsClean(s);
    WordsNeutralised(s);
    WordsCollapsed(Neutralised(s));
    WordsTrimLeft(Collapsed(Neutralised(s)));
    WordsTrimRight(TrimLeft(Collapsed(Neutralised(s))));
    if Clean(t) && Words(t) == Words(s) {
      CleanIsItsWords(Normal(s), t);
    }
  }

  /** Sanitising gives the first code units of the clean text with the same words, and all of it if it
      is short enough. */
  lemma SafeTextIff(s: Text, maxLength: nat, t: Text)
    ensures SafeText(s, maxLength) == t
        <==> exists whole :: Clean(whole) && Words(whole) == Words(s) && t <= whole
                             && |t| == if |whole| <= maxLength then |whole| else maxLength
  {
    NormalIff(s, Normal(s));
    forall whole ensures Clean(whole) && Words(whole) == Words(s) <==> Normal(s) == whole {
      NormalIff(s, whole);
    }
  }

  lemma CleanIsNormal(s: Text)
    requires Clean(s)
    ensures Normal(s) == s
  {
    assert Neutralised(s) == s;
    TidyCollapses(s);
    assert TrimLeft(s) == s && TrimRight(s) == s;
  }

  /** A word, a blank right before the cut, and another letter. */
  function WordBeforeCut(maxLength: nat): Text
    requires maxLength >= 2
  {
    seq(maxLength - 1, _ => 97) + [BLANK, 97]
  }

  /** For every limit that the session uses there is a text for which one pass is not enough: the
      first leaves a blank at the end, and the second takes it away. */
  lemma OnePassIsNotEnough(maxLength: nat)
    requires maxLength >= 2
    ensures
      var s := WordBeforeCut(maxLength);
      && SafeText(s, maxLength) == s[..maxLength]
      && SafeText(SafeText(s, maxLength), maxLength) == s[..maxLength - 1]
  {
    var s := WordBeforeCut(maxLength);
    CleanIsNormal(s);
    PassOnTidy(s[..maxLength], maxLength);
  }
}
