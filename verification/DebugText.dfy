/** What the debug lane reads out of item texts and how it edits them: the source's own inference, body and notes. */
module DebugText {
  import opened Js
  import opened DebugLane
  import opened DebugChain

  // ---------- Inferring the area ----------

  /** `first` at `i`, then at least `least` spaces and nothing else, then `second` at `j`. */
  predicate SpacedAt(s: string, i: nat, first: string, least: nat, j: nat, second: string) {
    HasAt(s, i, first) && i + |first| + least <= j <= |s| && (forall k :: i + |first| <= k < j ==> IsSpace(s[k])) && HasAt(s, j, second)
  }

  predicate Spaced(s: string, first: string, second: string) {
    exists i: nat, j: nat :: i <= |s| && j <= |s| && SpacedAt(s, i, first, 1, j, second)
  }

  /** The two words, with any spaces between them, as whole words. */
  predicate WholeWords(s: string, first: string, second: string) {
    exists i: nat, j: nat :: i <= |s| && j <= |s| && SpacedAt(s, i, first, 0, j, second)
      && (i == 0 || !IsWord(s[i - 1])) && (j + |second| == |s| || !IsWord(s[j + |second|]))
  }

  const WORKFLOW := "workflow"
  const CFG := "cfg"
  const AREA := "workflow_cfg"

  predicate CfgAt(s: string, i: nat) {
    HasAt(s, i, WORKFLOW)
    && (HasAt(s, i + 8, CFG) || (i + 8 < |s| && (s[i + 8] == '-' || s[i + 8] == '_' || IsSpace(s[i + 8])) && HasAt(s, i + 9, CFG)))
  }

  predicate NamesCfg(s: string) {
    exists i: nat :: i <= |s| && CfgAt(s, i)
  }

  function InferArea(title: string, body: string): string {
    var text := ToLower(title + " " + body);
    if NamesCfg(text) || WholeWords(text, WORKFLOW, "configuration") then AREA
    else if Spaced(text, "menu", "schema") && Contains(text, WORKFLOW) then AREA
    else if WholeWords(text, WORKFLOW, CFG) && Contains(text, "navigation") then AREA
    else if Spaced(text, "profile", "config") && Contains(text, WORKFLOW) then AREA
    else ""
  }

  // ---------- Bodies ----------

  const NOTES := "## Notes"

  function AppendNotes(body: string, line: string): string {
    var existing := TrimEnd(body);
    existing + (if Contains(existing, NOTES) then "" else "\n\n## Notes") + "\n- " + line + "\n"
  }

  function BuildBody(now: string, summary: string, note: string): string {
    var body := "## Summary\n" + summary + "\n\n## Notes\n";
    if note == "" then body else AppendNotes(body, now + " " + note)
  }

  /** The lane's text functions at one moment; what the results below do not look at is left open. */
  function SourceText(now: string, normalize: string -> string, tidy: string -> string,
                      architecture: string -> bool, evidenceMissing: string -> bool): LaneText {
    LaneText((title, body) => InferArea(title, body), normalize, (title, note) => BuildBody(now, title, note),
             (body, line) => AppendNotes(body, now + " " + line), tidy, architecture, evidenceMissing)
  }

  // ---------- A title of no area, evidence of one ----------

  predicate NoW(s: string) {
    'w' !in s && 'W' !in s
  }

  lemma NoWJoins(a: string, b: string)
    requires NoW(a) && NoW(b)
    ensures NoW(a + b)
  {
  }

  lemma {:induction false} LowerHasNoW(s: string)
    requires NoW(s)
    ensures NoW(ToLower(s))
  {
    if s != [] {
      LowerHasNoW(s[1..]);
      NoWJoins(LowerOne(s[0]), ToLower(s[1..]));
    }
  }

  lemma WorkflowHasW(s: string, i: nat)
    ensures HasAt(s, i, WORKFLOW) ==> 'w' in s
  {
    if HasAt(s, i, WORKFLOW) {
      assert s[i..i + 8][0] == 'w';
      assert s[i] == 'w';
    }
  }

  lemma NoAreaWithoutW(title: string, body: string)
    requires NoW(title) && NoW(body)
    ensures InferArea(title, body) == ""
  {
    var text := ToLower(title + " " + body);
    NoWJoins(title, " ");
    NoWJoins(title + " ", body);
    LowerHasNoW(title + " " + body);
    hide ToLower;
    forall i: nat
      ensures !HasAt(text, i, WORKFLOW)
    {
      WorkflowHasW(text, i);
    }
    hide HasAt;
  }

  lemma FreshBodyHasNoW(now: string, title: string)
    requires NoW(title)
    ensures NoW(BuildBody(now, title, ""))
  {
    assert NoW("## Summary\n") && NoW("\n\n## Notes\n");
    NoWJoins("## Summary\n", title);
    NoWJoins("## Summary\n" + title, "\n\n## Notes\n");
  }

  lemma CfgStands(before: string, after: string)
    ensures NamesCfg(before + AREA + after)
  {
    var s := before + AREA + after;
    assert s[|before|..|before| + 8] == WORKFLOW;
    assert s[|before| + 8] == '_';
    assert s[|before| + 9..|before| + 12] == CFG;
    assert CfgAt(s, |before|);
  }

  lemma AreaIsLower()
    ensures ToLower(AREA) == AREA
  {
    LowerLettersStay(AREA);
  }

  lemma NamedAreaIsInferred(title: string, before: string, after: string)
    ensures InferArea(title, before + AREA + after) == AREA
  {
    hide ToLower, NamesCfg, WholeWords, Spaced, Contains;
    var front := title + " " + before;
    assert title + " " + (before + AREA + after) == front + AREA + after;
    ToLowerJoins(front + AREA, after);
    ToLowerJoins(front, AREA);
    AreaIsLower();
    CfgStands(ToLower(front), ToLower(after));
  }

  lemma AreaIsTrimmed()
    ensures Trim(AREA) == AREA && !Blank(AREA)
  {
    TrimKeeps(AREA);
  }

  /**
   * With the lane's own text functions, whatever the moment: an item whose title has no `w` in it starts without an
   * area, and completed with the name of the area as evidence it ends in that area. So evidence escapes every bound there.
   */
  lemma SourceTextMoves(title: string, now: string, normalize: string -> string, tidy: string -> string,
                        architecture: string -> bool, evidenceMissing: string -> bool)
    requires ValidTitle(title) && NoW(Trim(title))
    ensures MovesInto(SourceText(now, normalize, tidy, architecture, evidenceMissing), title, AREA, AREA)
  {
    var t := SourceText(now, normalize, tidy, architecture, evidenceMissing);
    var start := BuildBody(now, Trim(title), "");
    FreshBodyHasNoW(now, Trim(title));
    NoAreaWithoutW(Trim(title), start);
    AreaIsTrimmed();
    NotedBodyNamesArea(tidy(start), now);
    var before := NoteFront(tidy(start), now);
    NamedAreaIsInferred(Trim(title), before, "\n");
    hide InferArea, AppendNotes, BuildBody, ValidTitle, Trim;
  }

  function NoteFront(body: string, now: string): string {
    TrimEnd(body) + (if Contains(TrimEnd(body), NOTES) then "" else "\n\n## Notes") + "\n- " + (now + " " + "evidence: ")
  }

  lemma NotedBodyNamesArea(body: string, now: string)
    ensures AppendNotes(body, now + " " + ("evidence: " + AREA)) == NoteFront(body, now) + AREA + "\n"
  {
    assert now + " " + ("evidence: " + AREA) == (now + " " + "evidence: ") + AREA;
    hide TrimEnd, Contains;
  }

  /** For every number there is a run of strict completions, on the lane's own texts, with that many done items in one area. */
  lemma SourceTextEscapesEveryBound(title: string, now: string, normalize: string -> string, tidy: string -> string,
                                    architecture: string -> bool, evidenceMissing: string -> bool, n: nat)
    requires ValidTitle(title) && NoW(Trim(title))
    ensures CountDone(SourceText(now, normalize, tidy, architecture, evidenceMissing),
                      Run(SourceText(now, normalize, tidy, architecture, evidenceMissing), Rounds(title, AREA, n)), AREA) == n
  {
    SourceTextMoves(title, now, normalize, tidy, architecture, evidenceMissing);
    EvidenceEscapesEveryBound(SourceText(now, normalize, tidy, architecture, evidenceMissing), title, AREA, AREA, n);
    hide SourceText, MovesInto, ValidTitle, Trim;
  }
}
