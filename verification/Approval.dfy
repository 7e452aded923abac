/** Which user texts count as an explicit confirmation of a planning stage. */
module Approval {
  import opened Js

  datatype Stage = Sprint | Implementation

  const GENERIC: seq<string> :=
    ["approved", "approve", "yes", "ok", "okay", "agree", "agreed", "proceed", "go ahead", "go-ahead",
     "looks good", "sounds good", "good", "fine", "great", "thanks", "lgtm"]

  const SPRINT_WORDS: seq<string> :=
    ["confirm sprint creation", "authorize sprint creation", "start the sprint", "create the sprint", "open the sprint",
     "plan the sprint", "sprint plan", "sprint planning", "sprint task", "sprint"]

  const IMPLEMENTATION_WORDS: seq<string> :=
    ["confirm implementation", "authorize implementation", "confirm delegate to coder", "authorize delegate to coder",
     "confirm implementation creation", "authorize implementation creation", "delegate to coder", "start coding",
     "start the implementation", "code it", "code change", "go build", "implement", "implementation", "delegate"]

  const STRONG_SPRINT: seq<string> := ["confirm sprint creation", "authorize sprint creation"]

  const STRONG_IMPLEMENTATION: seq<string> :=
    ["confirm implementation", "authorize implementation", "confirm delegate to coder", "authorize delegate to coder",
     "confirm implementation creation", "authorize implementation creation"]

  const NEGATIONS: seq<string> := ["not", "cannot", "never", "without", "no"]

  predicate IsTrailingMark(c: char) {
    c in ['!', '.', '?', ',', ';', ':']
  }

  function StripMarks(s: string): string {
    if s != [] && IsTrailingMark(s[|s| - 1]) then StripMarks(s[..|s| - 1]) else s
  }

  function Normalized(text: string): string {
    StripMarks(ToLower(Trim(text)))
  }

  predicate EndsAt(s: string, i: nat, phrase: string) {
    i + |phrase| <= |s| && s[i..i + |phrase|] == phrase && (i + |phrase| == |s| || !IsWord(s[i + |phrase|]))
  }

  predicate StandsAt(s: string, i: nat, phrase: string) {
    EndsAt(s, i, phrase) && (i == 0 || !IsWord(s[i - 1]))
  }

  /** The phrase occurs in the text as whole words. */
  predicate Says(s: string, phrase: string) {
    exists i: nat :: i <= |s| && StandsAt(s, i, phrase)
  }

  predicate SaysOneOf(s: string, phrases: seq<string>) {
    exists n :: 0 <= n < |phrases| && Says(s, phrases[n])
  }

  /** The phrase occurs in the text and no word goes on behind it. */
  predicate Ends(s: string, phrase: string) {
    exists i: nat :: i <= |s| && EndsAt(s, i, phrase)
  }

  predicate Contracted(s: string) {
    Ends(s, "n't")
  }

  predicate Negated(s: string) {
    SaysOneOf(s, NEGATIONS) || Contracted(s)
  }

  function WordsOf(stage: Stage): seq<string> {
    if stage.Sprint? then SPRINT_WORDS else IMPLEMENTATION_WORDS
  }

  function StrongWordsOf(stage: Stage): seq<string> {
    if stage.Sprint? then STRONG_SPRINT else STRONG_IMPLEMENTATION
  }

  function ExplicitStage(text: string): Option<Stage> {
    var s := Normalized(text);
    if Negated(s) then None
    else if SaysOneOf(s, STRONG_SPRINT) then Some(Sprint)
    else if SaysOneOf(s, STRONG_IMPLEMENTATION) then Some(Implementation)
    else if !SaysOneOf(s, GENERIC) then None
    else if SaysOneOf(s, SPRINT_WORDS) == SaysOneOf(s, IMPLEMENTATION_WORDS) then None
    else Some(if SaysOneOf(s, SPRINT_WORDS) then Sprint else Implementation)
  }

  /** A phrase is said where the text is something, the phrase and something again, with no word character on either side of it. */
  lemma SaysIff(s: string, phrase: string)
    ensures Says(s, phrase)
            <==> exists before, after :: Around(s, before, phrase, after) && NoWordAround(before, after)
  {
    hide IsWord;
    if i: nat :| i <= |s| && StandsAt(s, i, phrase) {
      assert s == s[..i] + phrase + s[i + |phrase|..];
      assert Around(s, s[..i], phrase, s[i + |phrase|..]);
    }
    if before, after :| Around(s, before, phrase, after) && NoWordAround(before, after) {
      assert s[|before|..|before| + |phrase|] == phrase;
      assert StandsAt(s, |before|, phrase);
    }
  }

  /**
   * What a text confirms: nothing with a negation; a stage by one of its strong phrases, the sprint's first; and otherwise, beside
   * a generic approval, the stage of which it says a word while saying none of the other's.
   */
  lemma ConfirmationsIff(text: string)
    ensures var s := Normalized(text);
            var (sprint, implementation) := (SaysOneOf(s, SPRINT_WORDS), SaysOneOf(s, IMPLEMENTATION_WORDS));
            var (strongSprint, strongImplementation) := (SaysOneOf(s, STRONG_SPRINT), SaysOneOf(s, STRONG_IMPLEMENTATION));
            && (ExplicitStage(text) == Some(Sprint)
                <==> !SaysOneOf(s, NEGATIONS) && !Ends(s, "n't")
                     && (strongSprint || (!strongImplementation && SaysOneOf(s, GENERIC) && sprint && !implementation)))
            && (ExplicitStage(text) == Some(Implementation)
                <==> !SaysOneOf(s, NEGATIONS) && !Ends(s, "n't") && !strongSprint
                     && (strongImplementation || (SaysOneOf(s, GENERIC) && implementation && !sprint)))
  {
    hide SaysOneOf, Ends, Normalized;
  }

  // ---------- Normalizing hides no word ----------

  predicate IsPhrase(phrase: string) {
    phrase != [] && IsWord(phrase[0]) && IsWord(phrase[|phrase| - 1])
  }

  lemma PhraseEnds(s: string, i: nat, phrase: string)
    requires EndsAt(s, i, phrase)
    ensures i + |phrase| <= |s|
  {
  }

  lemma PhraseFits(s: string, i: nat, phrase: string)
    requires EndsAt(s, i, phrase) && s != [] && !IsWord(s[0]) && IsPhrase(phrase)
    ensures 1 <= i && i + |phrase| <= |s|
  {
    assert s[i..i + |phrase|][0] == phrase[0];
  }

  lemma StandsWithoutFirst(s: string, i: nat, phrase: string)
    requires s != [] && !IsWord(s[0]) && IsPhrase(phrase) && 1 <= i && i + |phrase| <= |s|
    ensures StandsAt(s, i, phrase) <==> StandsAt(s[1..], i - 1, phrase)
    ensures EndsAt(s, i, phrase) <==> EndsAt(s[1..], i - 1, phrase)
  {
    assert forall k :: i - 1 <= k < i + |phrase| && k + 1 < |s| ==> s[1..][k] == s[k + 1];
    assert s[i..i + |phrase|] == s[1..][i - 1..i - 1 + |phrase|];
  }

  lemma DropFirst(s: string, phrase: string)
    requires s != [] && !IsWord(s[0]) && IsPhrase(phrase)
    ensures Says(s, phrase) <==> Says(s[1..], phrase)
  {
    hide EndsAt, IsPhrase, IsWord;
    if Says(s, phrase) {
      var i: nat :| i <= |s| && StandsAt(s, i, phrase);
      PhraseFits(s, i, phrase);
      StandsWithoutFirst(s, i, phrase);
      assert i - 1 <= |s[1..]| && StandsAt(s[1..], i - 1, phrase);
    }
    if Says(s[1..], phrase) {
      var i: nat :| i <= |s[1..]| && StandsAt(s[1..], i, phrase);
      PhraseEnds(s[1..], i, phrase);
      StandsWithoutFirst(s, i + 1, phrase);
      assert StandsAt(s, i + 1, phrase);
    }
  }

  lemma StandsWithoutLast(s: string, i: nat, phrase: string)
    requires s != [] && !IsWord(s[|s| - 1]) && IsPhrase(phrase) && i + |phrase| <= |s|
    ensures StandsAt(s, i, phrase) <==> StandsAt(s[..|s| - 1], i, phrase)
    ensures EndsAt(s, i, phrase) <==> EndsAt(s[..|s| - 1], i, phrase)
  {
    if i + |phrase| < |s| {
      assert s[i..i + |phrase|] == s[..|s| - 1][i..i + |phrase|];
    } else {
      assert s[i..i + |phrase|][|phrase| - 1] == s[|s| - 1];
    }
  }

  lemma DropLast(s: string, phrase: string)
    requires s != [] && !IsWord(s[|s| - 1]) && IsPhrase(phrase)
    ensures Says(s, phrase) <==> Says(s[..|s| - 1], phrase)
  {
    hide EndsAt, IsPhrase, IsWord;
    var front := s[..|s| - 1];
    if Says(s, phrase) {
      var i: nat :| i <= |s| && StandsAt(s, i, phrase);
      PhraseEnds(s, i, phrase);
      StandsWithoutLast(s, i, phrase);
      PhraseEnds(front, i, phrase);
      assert i <= |front| && StandsAt(front, i, phrase);
    }
    if Says(front, phrase) {
      var i: nat :| i <= |front| && StandsAt(front, i, phrase);
      PhraseEnds(front, i, phrase);
      StandsWithoutLast(s, i, phrase);
      assert StandsAt(s, i, phrase);
    }
  }

  lemma DropFirstEnds(s: string, phrase: string)
    requires s != [] && !IsWord(s[0]) && IsPhrase(phrase)
    ensures Ends(s, phrase) <==> Ends(s[1..], phrase)
  {
    hide EndsAt, IsPhrase, IsWord;
    if Ends(s, phrase) {
      var i: nat :| i <= |s| && EndsAt(s, i, phrase);
      PhraseFits(s, i, phrase);
      StandsWithoutFirst(s, i, phrase);
      assert i - 1 <= |s[1..]| && EndsAt(s[1..], i - 1, phrase);
    }
    if Ends(s[1..], phrase) {
      var i: nat :| i <= |s[1..]| && EndsAt(s[1..], i, phrase);
      PhraseEnds(s[1..], i, phrase);
      StandsWithoutFirst(s, i + 1, phrase);
      assert EndsAt(s, i + 1, phrase);
    }
  }

  lemma DropLastEnds(s: string, phrase: string)
    requires s != [] && !IsWord(s[|s| - 1]) && IsPhrase(phrase)
    ensures Ends(s, phrase) <==> Ends(s[..|s| - 1], phrase)
  {
    hide EndsAt, IsPhrase, IsWord;
    var front := s[..|s| - 1];
    if Ends(s, phrase) {
      var i: nat :| i <= |s| && EndsAt(s, i, phrase);
      PhraseEnds(s, i, phrase);
      StandsWithoutLast(s, i, phrase);
      PhraseEnds(front, i, phrase);
      assert i <= |front| && EndsAt(front, i, phrase);
    }
    if Ends(front, phrase) {
      var i: nat :| i <= |front| && EndsAt(front, i, phrase);
      PhraseEnds(front, i, phrase);
      StandsWithoutLast(s, i, phrase);
      assert EndsAt(s, i, phrase);
    }
  }

  lemma {:induction false} StripMarksKeepsWords(s: string, phrase: string)
    requires IsPhrase(phrase)
    ensures Says(StripMarks(s), phrase) <==> Says(s, phrase)
    ensures Ends(StripMarks(s), phrase) <==> Ends(s, phrase)
  {
    if s != [] && IsTrailingMark(s[|s| - 1]) {
      DropLast(s, phrase);
      DropLastEnds(s, phrase);
      StripMarksKeepsWords(s[..|s| - 1], phrase);
    }
  }

  lemma SpacesLowerToThemselves(c: char)
    requires IsSpace(c)
    ensures LowerOne(c) == [c] && !IsWord(c)
  {
  }

  lemma {:induction false} TrimStartKeepsWords(s: string, phrase: string)
    requires IsPhrase(phrase)
    ensures Says(ToLower(TrimStart(s)), phrase) <==> Says(ToLower(s), phrase)
    ensures Ends(ToLower(TrimStart(s)), phrase) <==> Ends(ToLower(s), phrase)
  {
    if s != [] && IsSpace(s[0]) {
      SpacesLowerToThemselves(s[0]);
      assert ToLower(s) == [s[0]] + ToLower(s[1..]);
      assert ToLower(s)[1..] == ToLower(s[1..]);
      DropFirst(ToLower(s), phrase);
      DropFirstEnds(ToLower(s), phrase);
      TrimStartKeepsWords(s[1..], phrase);
    }
  }

  lemma {:induction false} TrimEndKeepsWords(s: string, phrase: string)
    requires IsPhrase(phrase)
    ensures Says(ToLower(TrimEnd(s)), phrase) <==> Says(ToLower(s), phrase)
    ensures Ends(ToLower(TrimEnd(s)), phrase) <==> Ends(ToLower(s), phrase)
  {
    if s != [] && IsSpace(s[|s| - 1]) {
      var front, last := s[..|s| - 1], [s[|s| - 1]];
      SpacesLowerToThemselves(s[|s| - 1]);
      assert s == front + last;
      ToLowerJoins(front, last);
      assert ToLower(last) == last;
      assert ToLower(s)[..|ToLower(s)| - 1] == ToLower(front);
      DropLast(ToLower(s), phrase);
      DropLastEnds(ToLower(s), phrase);
      TrimEndKeepsWords(front, phrase);
    }
  }

  /** Trimming and dropping closing punctuation neither hide nor make up a whole-word phrase. */
  lemma NormalizingKeepsWords(text: string, phrase: string)
    requires IsPhrase(phrase)
    ensures Says(Normalized(text), phrase) <==> Says(ToLower(text), phrase)
    ensures Ends(Normalized(text), phrase) <==> Ends(ToLower(text), phrase)
  {
    StripMarksKeepsWords(ToLower(Trim(text)), phrase);
    TrimEndKeepsWords(TrimStart(text), phrase);
    TrimStartKeepsWords(text, phrase);
  }

  // ---------- What a confirmation says ----------

  /** A confirmation contains no negation and names its stage in whole words. */
  lemma ConfirmationsNameTheirStage(text: string, stage: Stage)
    requires ExplicitStage(text) == Some(stage)
    ensures !Negated(Normalized(text))
    ensures SaysOneOf(Normalized(text), WordsOf(stage))
    ensures SaysOneOf(Normalized(text), StrongWordsOf(stage))
            || (SaysOneOf(Normalized(text), GENERIC) && !SaysOneOf(Normalized(text), WordsOf(if stage.Sprint? then Implementation else Sprint)))
  {
    var s := Normalized(text);
    hide Says, Contracted, Normalized;
    if SaysOneOf(s, STRONG_SPRINT) && stage.Sprint? {
      var n :| 0 <= n < |STRONG_SPRINT| && Says(s, STRONG_SPRINT[n]);
      assert SPRINT_WORDS[n] == STRONG_SPRINT[n];
    } else if SaysOneOf(s, STRONG_IMPLEMENTATION) && stage.Implementation? {
      var n :| 0 <= n < |STRONG_IMPLEMENTATION| && Says(s, STRONG_IMPLEMENTATION[n]);
      assert IMPLEMENTATION_WORDS[n] == STRONG_IMPLEMENTATION[n];
    }
  }

  /** A negation anywhere in the text, a negating word or a contraction, and nothing else in it can confirm a stage. */
  lemma NegationWins(text: string)
    ensures Negated(Normalized(text)) <==> Negated(ToLower(text))
    ensures Negated(ToLower(text)) ==> ExplicitStage(text) == None
  {
    hide Says, Ends, Normalized, ToLower;
    forall n | 0 <= n < |NEGATIONS|
      ensures Says(Normalized(text), NEGATIONS[n]) <==> Says(ToLower(text), NEGATIONS[n])
    {
      NegationsAreLowerWords(n);
      NormalizingKeepsWords(text, NEGATIONS[n]);
    }
    NormalizingKeepsWords(text, "n't");
  }

  /** In particular a negating word between spaces, whatever stands around it. */
  lemma NegatingWordWins(before: string, after: string, n: nat)
    requires n < |NEGATIONS|
    ensures ExplicitStage(before + (" " + (NEGATIONS[n] + (" " + after)))) == None
  {
    NegationsAreLowerWords(n);
    LowersAround(before, NEGATIONS[n], after);
    WordStands(ToLower(before), ToLower(after), NEGATIONS[n]);
    NegationWins(before + (" " + (NEGATIONS[n] + (" " + after))));
    hide Says, Normalized, ToLower;
  }

  lemma LowersAround(before: string, word: string, after: string)
    requires ToLower(word) == word
    ensures ToLower(before + (" " + (word + (" " + after)))) == ToLower(before) + (" " + (word + (" " + ToLower(after))))
  {
    ToLowerJoins(before, " " + (word + (" " + after)));
    ToLowerJoins(" ", word + (" " + after));
    ToLowerJoins(word, " " + after);
    ToLowerJoins(" ", after);
    assert ToLower(" ") == " ";
    hide ToLower;
  }

  lemma NegationsAreLowerWords(n: nat)
    requires n < |NEGATIONS|
    ensures ToLower(NEGATIONS[n]) == NEGATIONS[n] && IsPhrase(NEGATIONS[n])
  {
    LowerLettersStay(NEGATIONS[n]);
  }

  lemma WordStands(a: string, b: string, word: string)
    ensures Says(a + (" " + (word + (" " + b))), word)
  {
    var s := a + (" " + (word + (" " + b)));
    assert s[|a| + 1..|a| + 1 + |word|] == word;
    assert s[|a|] == ' ' && s[|a| + 1 + |word|] == ' ';
    assert StandsAt(s, |a| + 1, word);
  }

  // ---------- The apostrophe a negation is recognised by ----------

  const STRAIGHT := '\''
  const TYPOGRAPHIC := '\U{2019}'
  const CURLY_CONTRACTION := "n\U{2019}t"

  function StraightenOne(c: char): char {
    if c == TYPOGRAPHIC then STRAIGHT else c
  }

  /** The text with every typographic apostrophe typed straight. */
  function Straighten(s: string): string {
    if s == [] then [] else [StraightenOne(s[0])] + Straighten(s[1..])
  }

  lemma {:induction false} StraightenAt(s: string)
    ensures |Straighten(s)| == |s| && forall i :: 0 <= i < |s| ==> Straighten(s)[i] == StraightenOne(s[i])
  {
    if s != [] {
      StraightenAt(s[1..]);
    }
  }

  lemma StraightenSlice(s: string, i: nat, j: nat)
    requires i <= j <= |s|
    ensures |Straighten(s)| == |s| && Straighten(s)[i..j] == Straighten(s[i..j])
  {
    StraightenAt(s);
    StraightenAt(s[i..j]);
    hide Straighten, StraightenOne;
  }

  lemma ApostrophesAreNotSpaces(c: char)
    ensures IsSpace(StraightenOne(c)) == IsSpace(c) && IsTrailingMark(StraightenOne(c)) == IsTrailingMark(c) && IsWord(StraightenOne(c)) == IsWord(c)
    ensures LowerOne(StraightenOne(c)) == Straighten(LowerOne(c))
  {
    StraightenAt(LowerOne(c));
  }

  lemma {:induction false} StraightenTrimStart(s: string)
    ensures TrimStart(Straighten(s)) == Straighten(TrimStart(s))
  {
    if s != [] {
      ApostrophesAreNotSpaces(s[0]);
      StraightenTrimStart(s[1..]);
      hide IsSpace, StraightenOne;
    }
  }

  lemma {:induction false} StraightenTrimEnd(s: string)
    ensures TrimEnd(Straighten(s)) == Straighten(TrimEnd(s))
  {
    StraightenAt(s);
    if s != [] {
      ApostrophesAreNotSpaces(s[|s| - 1]);
      StraightenSlice(s, 0, |s| - 1);
      StraightenTrimEnd(s[..|s| - 1]);
      hide IsSpace, StraightenOne, Straighten;
    }
  }

  lemma {:induction false} StraightenStripMarks(s: string)
    ensures StripMarks(Straighten(s)) == Straighten(StripMarks(s))
  {
    StraightenAt(s);
    if s != [] {
      ApostrophesAreNotSpaces(s[|s| - 1]);
      StraightenSlice(s, 0, |s| - 1);
      StraightenStripMarks(s[..|s| - 1]);
      hide IsTrailingMark, StraightenOne, Straighten;
    }
  }

  lemma {:induction false} StraightenJoins(a: string, b: string)
    ensures Straighten(a + b) == Straighten(a) + Straighten(b)
  {
    if a == [] {
      assert a + b == b;
    } else {
      assert (a + b)[1..] == a[1..] + b;
      StraightenJoins(a[1..], b);
    }
  }

  lemma {:induction false} StraightenToLower(s: string)
    ensures ToLower(Straighten(s)) == Straighten(ToLower(s))
  {
    if s != [] {
      ApostrophesAreNotSpaces(s[0]);
      StraightenToLower(s[1..]);
      StraightenJoins(LowerOne(s[0]), ToLower(s[1..]));
      hide LowerOne, StraightenOne;
    }
  }

  lemma StraightenNormalized(text: string)
    ensures Normalized(Straighten(text)) == Straighten(Normalized(text))
  {
    StraightenTrimStart(text);
    StraightenTrimEnd(TrimStart(text));
    StraightenToLower(Trim(text));
    StraightenStripMarks(ToLower(Trim(text)));
    hide Straighten, TrimStart, TrimEnd, ToLower, StripMarks;
  }

  /** A phrase without apostrophes of either kind. */
  predicate Plain(phrase: string) {
    STRAIGHT !in phrase && TYPOGRAPHIC !in phrase
  }

  lemma PlainStandsAlike(s: string, i: nat, phrase: string)
    requires Plain(phrase)
    ensures StandsAt(Straighten(s), i, phrase) <==> StandsAt(s, i, phrase)
  {
    StraightenAt(s);
    hide Straighten;
    if i + |phrase| <= |s| {
      assert Straighten(s)[i..i + |phrase|] == phrase <==> s[i..i + |phrase|] == phrase by {
        SamePieces(s, Straighten(s), i, phrase);
      }
    }
  }

  lemma SamePieces(s: string, t: string, i: nat, phrase: string)
    requires Plain(phrase) && i + |phrase| <= |s| == |t| && forall k :: 0 <= k < |s| ==> t[k] == StraightenOne(s[k])
    ensures t[i..i + |phrase|] == phrase <==> s[i..i + |phrase|] == phrase
  {
    if t[i..i + |phrase|] == phrase {
      forall k | 0 <= k < |phrase|
        ensures s[i..i + |phrase|][k] == phrase[k]
      {
        assert t[i..i + |phrase|][k] == t[i + k];
      }
    }
    if s[i..i + |phrase|] == phrase {
      forall k | 0 <= k < |phrase|
        ensures t[i..i + |phrase|][k] == phrase[k]
      {
        assert s[i..i + |phrase|][k] == s[i + k];
      }
    }
  }

  /** Apostrophes do not matter to a phrase without them. */
  lemma PlainSaidAlike(s: string, phrase: string)
    requires Plain(phrase)
    ensures Says(Straighten(s), phrase) <==> Says(s, phrase)
  {
    StraightenAt(s);
    hide Straighten, StandsAt, Plain;
    forall i: nat
      ensures StandsAt(Straighten(s), i, phrase) <==> StandsAt(s, i, phrase)
    {
      PlainStandsAlike(s, i, phrase);
    }
  }

  predicate AllPlain(phrases: seq<string>) {
    forall n :: 0 <= n < |phrases| ==> Plain(phrases[n])
  }

  lemma PlainOnesSaidAlike(s: string, phrases: seq<string>)
    requires AllPlain(phrases)
    ensures SaysOneOf(Straighten(s), phrases) <==> SaysOneOf(s, phrases)
  {
    hide Straighten, Says, Plain;
    forall n | 0 <= n < |phrases|
      ensures Says(Straighten(s), phrases[n]) <==> Says(s, phrases[n])
    {
      PlainSaidAlike(s, phrases[n]);
    }
  }

  lemma GenericIsPlain(n: nat)
    requires n < |GENERIC|
    ensures Plain(GENERIC[n])
  {
  }

  lemma NegationsArePlain(n: nat)
    requires n < |NEGATIONS|
    ensures Plain(NEGATIONS[n])
  {
  }

  lemma SprintStartIsPlain(n: nat)
    requires n < 4
    ensures Plain(SPRINT_WORDS[n])
  {
  }

  lemma SprintEndIsPlain(n: nat)
    requires 4 <= n < |SPRINT_WORDS|
    ensures Plain(SPRINT_WORDS[n])
  {
  }

  lemma ImplementationStartIsPlain(n: nat)
    requires n < 3
    ensures Plain(IMPLEMENTATION_WORDS[n])
  {
  }

  lemma ImplementationMiddleIsPlain(n: nat)
    requires 3 <= n < 8
    ensures Plain(IMPLEMENTATION_WORDS[n])
  {
  }

  lemma ImplementationEndIsPlain(n: nat)
    requires 8 <= n < |IMPLEMENTATION_WORDS|
    ensures Plain(IMPLEMENTATION_WORDS[n])
  {
  }

  /** The strong words of a stage are its first words. */
  lemma StrongWordsComeFirst()
    ensures STRONG_SPRINT == SPRINT_WORDS[..2] && STRONG_IMPLEMENTATION == IMPLEMENTATION_WORDS[..6]
  {
  }

  lemma PartsArePlain(phrases: seq<string>, n: nat)
    requires n <= |phrases| && AllPlain(phrases)
    ensures AllPlain(phrases[..n])
  {
    hide Plain;
  }

  lemma WordListsArePlain()
    ensures AllPlain(GENERIC) && AllPlain(NEGATIONS) && AllPlain(STRONG_SPRINT) && AllPlain(STRONG_IMPLEMENTATION)
    ensures AllPlain(SPRINT_WORDS) && AllPlain(IMPLEMENTATION_WORDS)
  {
    hide Plain;
    forall n | 0 <= n < |GENERIC|
      ensures Plain(GENERIC[n])
    {
      GenericIsPlain(n);
    }
    forall n | 0 <= n < |NEGATIONS|
      ensures Plain(NEGATIONS[n])
    {
      NegationsArePlain(n);
    }
    forall n | 0 <= n < |SPRINT_WORDS|
      ensures Plain(SPRINT_WORDS[n])
    {
      if n < 4 {
        SprintStartIsPlain(n);
      } else {
        SprintEndIsPlain(n);
      }
    }
    forall n | 0 <= n < |IMPLEMENTATION_WORDS|
      ensures Plain(IMPLEMENTATION_WORDS[n])
    {
      if n < 3 {
        ImplementationStartIsPlain(n);
      } else if n < 8 {
        ImplementationMiddleIsPlain(n);
      } else {
        ImplementationEndIsPlain(n);
      }
    }
    StrongWordsComeFirst();
    PartsArePlain(SPRINT_WORDS, 2);
    PartsArePlain(IMPLEMENTATION_WORDS, 6);
  }

  /** Typed straight, a text is contracted exactly where it was contracted with either apostrophe. */
  lemma StraightenedContractions(s: string)
    ensures Contracted(Straighten(s)) <==> Contracted(s) || Ends(s, CURLY_CONTRACTION)
  {
    StraightenAt(s);
    hide Straighten;
    forall i: nat | i <= |s|
      ensures EndsAt(Straighten(s), i, "n't") <==> EndsAt(s, i, "n't") || EndsAt(s, i, CURLY_CONTRACTION)
    {
      ContractionAt(s, Straighten(s), i);
    }
    hide EndsAt;
  }

  lemma ContractionAt(s: string, t: string, i: nat)
    requires |s| == |t| && forall k :: 0 <= k < |s| ==> t[k] == StraightenOne(s[k])
    ensures EndsAt(t, i, "n't") <==> EndsAt(s, i, "n't") || EndsAt(s, i, CURLY_CONTRACTION)
  {
    ThreeLetters(s, i, "n't");
    ThreeLetters(t, i, "n't");
    ThreeLetters(s, i, CURLY_CONTRACTION);
  }

  lemma ThreeLetters(s: string, i: nat, phrase: string)
    requires |phrase| == 3
    ensures EndsAt(s, i, phrase) <==>
      i + 3 <= |s| && s[i] == phrase[0] && s[i + 1] == phrase[1] && s[i + 2] == phrase[2] && (i + 3 == |s| || !IsWord(s[i + 3]))
  {
    if i + 3 <= |s| {
      assert s[i..i + 3] == [s[i], s[i + 1], s[i + 2]];
      assert phrase == [phrase[0], phrase[1], phrase[2]];
    }
  }

  /**
   * When the kind of apostrophe matters: typed straight, a text confirms what it did, except that a contraction with a typographic
   * apostrophe anywhere in it then negates it. So the classifier reads both spellings alike exactly
   * for texts without such a contraction and texts that confirm nothing anyway.
   */
  lemma ApostrophesMatterIff(text: string)
    ensures ExplicitStage(Straighten(text)) == if Ends(Normalized(text), CURLY_CONTRACTION) then None else ExplicitStage(text)
    ensures ExplicitStage(Straighten(text)) == ExplicitStage(text)
            <==> !Ends(ToLower(text), CURLY_CONTRACTION) || ExplicitStage(text) == None
  {
    var s := Normalized(text);
    StraightenNormalized(text);
    StraightenedContractions(s);
    WordListsArePlain();
    NormalizingKeepsWords(text, CURLY_CONTRACTION);
    hide AllPlain, Straighten, Normalized, SaysOneOf, Ends;
    PlainOnesSaidAlike(s, NEGATIONS);
    PlainOnesSaidAlike(s, STRONG_SPRINT);
    PlainOnesSaidAlike(s, STRONG_IMPLEMENTATION);
    PlainOnesSaidAlike(s, GENERIC);
    PlainOnesSaidAlike(s, SPRINT_WORDS);
    PlainOnesSaidAlike(s, IMPLEMENTATION_WORDS);
  }

  const CURLY := "don\U{2019}t " + "confirm implementation"

  lemma CurlyCharacters(i: nat)
    requires i < |CURLY|
    ensures LowerOne(CURLY[i]) == [CURLY[i]]
    ensures CURLY[i] != 'w' && (CURLY[i] == 'c' ==> i == 6)
    ensures i + 1 < |CURLY| ==>
      && (CURLY[i] == 'n' ==> CURLY[i + 1] in ['\U{2019}', 'f', 't'])
      && (CURLY[i] == 'c' ==> CURLY[i + 1] == 'o')
      && (CURLY[i] == 'a' ==> CURLY[i + 1] == 't')
  {
  }

  lemma NormalTextStays(s: string)
    requires s != [] && !IsSpace(s[0]) && !IsSpace(s[|s| - 1]) && !IsTrailingMark(s[|s| - 1])
    requires forall i :: 0 <= i < |s| ==> LowerOne(s[i]) == [s[i]]
    ensures Normalized(s) == s
  {
    LowerLettersStay(s);
  }

  lemma CurlyIsNormal()
    ensures Normalized(CURLY) == CURLY
  {
    forall i | 0 <= i < |CURLY|
      ensures LowerOne(CURLY[i]) == [CURLY[i]]
    {
      CurlyCharacters(i);
    }
    NormalTextStays(CURLY);
    hide Normalized;
  }

  lemma PhraseStarts(s: string, i: nat, phrase: string)
    requires EndsAt(s, i, phrase) && |phrase| >= 2
    ensures i + |phrase| <= |s| && s[i] == phrase[0] && s[i + 1] == phrase[1]
  {
    assert s[i..i + |phrase|][0] == phrase[0] && s[i..i + |phrase|][1] == phrase[1];
  }

  lemma CurlyLacks(phrase: string)
    requires |phrase| >= 2
    requires
      || (phrase[0] == 'n' && phrase[1] !in ['\U{2019}', 'f', 't'])
      || (phrase[0] == 'c' && (phrase[1] != 'o' || |phrase| > 22))
      || phrase[0] == 'w'
      || (phrase[0] == 'a' && phrase[1] != 't')
    ensures forall i: nat :: i <= |CURLY| ==> !EndsAt(CURLY, i, phrase)
  {
    forall i: nat | i <= |CURLY| && EndsAt(CURLY, i, phrase)
      ensures false
    {
      PhraseStarts(CURLY, i, phrase);
      CurlyCharacters(i);
    }
  }

  lemma CurlyIsNotNegated()
    ensures !Negated(CURLY)
  {
    CurlyLacks("not");
    CurlyLacks("cannot");
    CurlyLacks("never");
    CurlyLacks("without");
    CurlyLacks("no");
    CurlyLacks("n't");
    hide EndsAt;
  }

  lemma CurlyNamesNoSprint()
    ensures !SaysOneOf(CURLY, STRONG_SPRINT)
  {
    CurlyLacks("confirm sprint creation");
    CurlyLacks("authorize sprint creation");
    hide EndsAt;
  }

  /** The two spellings do differ: this negated text confirms as it stands. */
  lemma CurlyNegationConfirms()
    ensures ExplicitStage(CURLY) == Some(Implementation)
  {
    CurlyIsNormal();
    CurlyIsNotNegated();
    CurlyNamesNoSprint();
    CurlySaysYes();
    hide Normalized, SaysOneOf, Negated;
  }

  lemma CurlySaysYes()
    ensures SaysOneOf(CURLY, STRONG_IMPLEMENTATION)
  {
    var phrase := "confirm implementation";
    assert CURLY[5] == ' ' && |CURLY| == 28 && |phrase| == 22 && STRONG_IMPLEMENTATION[0] == phrase;
    assert CURLY[6..6 + |phrase|] == phrase;
    assert StandsAt(CURLY, 6, phrase);
  }
}
