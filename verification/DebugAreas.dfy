/** The one area the debug lane infers from text, as decompositions of the text. */
module DebugAreas {
  import opened Js
  import opened DebugText

  /** `middle` between the two words, somewhere in the text. */
  ghost predicate Splits(s: string, before: string, first: string, middle: string, second: string, after: string) {
    s == before + first + middle + second + after
  }

  predicate AllSpaces(s: string) {
    forall i :: 0 <= i < |s| ==> IsSpace(s[i])
  }

  ghost predicate Mentions(s: string, part: string) {
    exists before, after :: Around(s, before, part, after)
  }

  /** The two words with at least `least` spaces, and nothing else, between them. */
  ghost predicate Apart(s: string, before: string, first: string, least: nat, middle: string, second: string, after: string) {
    Splits(s, before, first, middle, second, after) && AllSpaces(middle) && |middle| >= least
  }

  lemma SplitsAreSpaced(s: string, before: string, first: string, least: nat, middle: string, second: string, after: string)
    requires Apart(s, before, first, least, middle, second, after)
    ensures var (i, j) := (|before|, |before| + |first| + |middle|);
            SpacedAt(s, i, first, least, j, second) && j + |second| <= |s| && s[j + |second|..] == after && s[..i] == before
  {
    var (i, j) := (|before|, |before| + |first| + |middle|);
    assert s[i..i + |first|] == first;
    assert s[j..j + |second|] == second;
    forall k | i + |first| <= k < j
      ensures IsSpace(s[k])
    {
      assert s[k] == middle[k - i - |first|];
    }
  }

  lemma SpacedSplits(s: string, i: nat, first: string, least: nat, j: nat, second: string)
    requires SpacedAt(s, i, first, least, j, second)
    ensures i + |first| <= j && j + |second| <= |s|
    ensures Apart(s, s[..i], first, least, s[i + |first|..j], second, s[j + |second|..])
  {
    assert s == s[..i] + first + s[i + |first|..j] + second + s[j + |second|..];
  }

  ghost predicate SomewhereApart(s: string, first: string, second: string) {
    exists before, middle, after :: Apart(s, before, first, 1, middle, second, after)
  }

  lemma SpacedIsApart(s: string, first: string, second: string)
    ensures Spaced(s, first, second) <==> SomewhereApart(s, first, second)
  {
    if i: nat, j: nat :| i <= |s| && j <= |s| && SpacedAt(s, i, first, 1, j, second) {
      SpacedSplits(s, i, first, 1, j, second);
    }
    if before, middle, after :| Apart(s, before, first, 1, middle, second, after) {
      SplitsAreSpaced(s, before, first, 1, middle, second, after);
    }
    hide SpacedAt, Apart;
  }

  /** The same with any number of spaces, none included, and no word character on either side. */
  ghost predicate WholeApart(s: string, first: string, second: string) {
    exists before, middle, after :: Apart(s, before, first, 0, middle, second, after) && NoWordAround(before, after)
  }

  lemma WholeWordsSplit(s: string, i: nat, first: string, j: nat, second: string)
    requires i <= |s| && j <= |s| && SpacedAt(s, i, first, 0, j, second)
    requires (i == 0 || !IsWord(s[i - 1])) && (j + |second| == |s| || !IsWord(s[j + |second|]))
    ensures WholeApart(s, first, second)
  {
    SpacedSplits(s, i, first, 0, j, second);
    hide SpacedAt, Apart, IsWord;
    var (before, after) := (s[..i], s[j + |second|..]);
    assert before == [] || before[|before| - 1] == s[i - 1];
    assert after == [] || after[0] == s[j + |second|];
    assert Apart(s, before, first, 0, s[i + |first|..j], second, after) && NoWordAround(before, after);
  }

  lemma SplitWordsAreWhole(s: string, before: string, first: string, middle: string, second: string, after: string)
    requires Apart(s, before, first, 0, middle, second, after) && NoWordAround(before, after)
    ensures WholeWords(s, first, second)
  {
    SplitsAreSpaced(s, before, first, 0, middle, second, after);
    hide SpacedAt, Apart, IsWord;
    var (i, j) := (|before|, |before| + |first| + |middle|);
    assert i == 0 || s[i - 1] == s[..i][i - 1];
    assert j + |second| == |s| || s[j + |second|] == s[j + |second|..][0];
    assert SpacedAt(s, i, first, 0, j, second);
  }

  lemma WholeWordsAreSomewhere(s: string, first: string, second: string)
    requires WholeWords(s, first, second)
    ensures WholeApart(s, first, second)
  {
    hide IsWord, WholeApart;
    var i: nat, j: nat :| (
      && i <= |s| && j <= |s| && SpacedAt(s, i, first, 0, j, second)
      && (i == 0 || !IsWord(s[i - 1])) && (j + |second| == |s| || !IsWord(s[j + |second|])));
    WholeWordsSplit(s, i, first, j, second);
  }

  lemma WholeWordsAreApart(s: string, first: string, second: string)
    ensures WholeWords(s, first, second) <==> WholeApart(s, first, second)
  {
    hide SpacedAt, Apart, IsWord, NoWordAround;
    if WholeWords(s, first, second) {
      WholeWordsAreSomewhere(s, first, second);
    }
    if before, middle, after :| Apart(s, before, first, 0, middle, second, after) && NoWordAround(before, after) {
      SplitWordsAreWhole(s, before, first, middle, second, after);
    }
  }

  /** `workflow` and `cfg` with nothing, a hyphen, an underscore or one space between them. */
  ghost predicate Joined(s: string) {
    exists before, middle, after :: Splits(s, before, "workflow", middle, "cfg", after) && IsJoint(middle)
  }

  predicate IsJoint(middle: string) {
    middle == "" || (|middle| == 1 && (middle[0] == '-' || middle[0] == '_' || IsSpace(middle[0])))
  }

  lemma CfgIsJoined(s: string)
    ensures NamesCfg(s) <==> Joined(s)
  {
    if i: nat :| i <= |s| && CfgAt(s, i) {
      CfgSplits(s, i);
    }
    if before, middle, after :| Splits(s, before, "workflow", middle, "cfg", after) && IsJoint(middle) {
      JoinedAt(s, before, middle, after);
    }
    hide CfgAt, Splits;
  }

  lemma CfgSplits(s: string, i: nat)
    requires CfgAt(s, i)
    ensures Joined(s)
  {
    var middle := if HasAt(s, i + 8, CFG) then "" else [s[i + 8]];
    var j := i + 8 + |middle|;
    assert s == s[..i] + WORKFLOW + middle + CFG + s[j + 3..];
    assert Splits(s, s[..i], "workflow", middle, "cfg", s[j + 3..]);
  }

  lemma JoinedAt(s: string, before: string, middle: string, after: string)
    requires Splits(s, before, "workflow", middle, "cfg", after)
    requires IsJoint(middle)
    ensures |before| <= |s| && CfgAt(s, |before|)
  {
    var (i, j) := (|before|, |before| + 8 + |middle|);
    assert s[i..i + 8] == "workflow";
    assert s[j..j + 3] == "cfg";
    if middle != "" {
      assert s[i + 8] == middle[0];
    }
  }

  /**
   * What the lane infers, from title and body in lower case with a space between: the one area it knows, for `workflow` joined to `cfg`, for
   * `workflow configuration` or, beside `navigation`, `workflow cfg` as whole words, and for `menu schema` or `profile config` beside `workflow`; else none.
   */
  lemma InferenceSays(title: string, body: string)
    ensures var text := ToLower(title + " " + body);
            InferArea(title, body)
            == if Joined(text) || WholeApart(text, "workflow", "configuration")
                  || (SomewhereApart(text, "menu", "schema") && Mentions(text, "workflow"))
                  || (WholeApart(text, "workflow", "cfg") && Mentions(text, "navigation"))
                  || (SomewhereApart(text, "profile", "config") && Mentions(text, "workflow"))
               then "workflow_cfg" else ""
  {
    var text := ToLower(title + " " + body);
    CfgIsJoined(text);
    WholeWordsAreApart(text, WORKFLOW, "configuration");
    SpacedIsApart(text, "menu", "schema");
    ContainsIff(text, WORKFLOW);
    WholeWordsAreApart(text, WORKFLOW, CFG);
    ContainsIff(text, "navigation");
    SpacedIsApart(text, "profile", "config");
    hide NamesCfg, WholeWords, Spaced, Contains, Joined, WholeApart, SomewhereApart, Around, ToLower;
  }

  // ---------- The first body ----------

  lemma TrimLastLine(front: string)
    ensures TrimEnd(front + "## Notes\n") == front + "## Notes"
  {
    var s := front + "## Notes";
    assert front + "## Notes\n" == s + "\n";
    assert (s + "\n")[..|s|] == s;
    assert s[|s| - 1] == 's';
  }

  /** A new item's body: its summary, and under the notes the first one with its time, if there is one. */
  lemma FirstBodySays(now: string, summary: string, note: string)
    ensures BuildBody(now, summary, note)
            == "## Summary\n" + summary + "\n\n## Notes" + if note == "" then "\n" else "\n- " + now + " " + note + "\n"
  {
    var front := "## Summary\n" + summary + "\n\n";
    assert "## Summary\n" + summary + "\n\n## Notes\n" == front + "## Notes\n";
    assert "## Summary\n" + summary + "\n\n## Notes" == front + "## Notes";
    TrimLastLine(front);
    ContainsIff(front + "## Notes", NOTES);
    assert Around(front + "## Notes", front, NOTES, "");
    hide Contains, Around, TrimEnd;
    if note != "" {
      assert front + "## Notes" + "" + "\n- " + (now + " " + note) + "\n" == front + "## Notes" + ("\n- " + now + " " + note + "\n");
    }
  }
}
