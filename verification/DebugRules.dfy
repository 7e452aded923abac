/** What the debug lane's operations say and write, rule by rule and field by field. */
module DebugRules {
  import opened Js
  import opened DebugLane
  import opened DebugChain

  // ---------- The escalation rules ----------

  /** A given finite number that is at least `n`. */
  predicate AtLeast(given: Option<JsNumber>, n: nat) {
    given.Some? && given.value.Finite? && given.value.value >= n as real
  }

  /** The area a completion is judged by: the caller's, in normal form, where that leaves anything, else the item's own. */
  predicate IsJudgedIn(t: LaneText, i: Item, p: DoneParams, area: string) {
    if Blank(p.area) || t.normalize(Trim(p.area)) == "" then area == t.infer(i.title, i.body) else area == t.normalize(Trim(p.area))
  }

  /** Another item of the area that is done or promoted. */
  predicate ClosedBeside(t: LaneText, items: seq<Item>, i: Item, area: string, k: int) {
    0 <= k < |items| && items[k].status in {Done, Promoted} && items[k].id != i.id && t.infer(items[k].title, items[k].body) == area
  }

  lemma {:induction false} OneIsCounted(t: LaneText, items: seq<Item>, area: string, i: Item)
    requires area != ""
    ensures CountClosed(t, items, area, i.id) >= 1 <==> exists k :: ClosedBeside(t, items, i, area, k)
  {
    if items != [] {
      var n := |items| - 1;
      OneIsCounted(t, items[..n], area, i);
      if k :| ClosedBeside(t, items[..n], i, area, k) {
        assert ClosedBeside(t, items, i, area, k);
      }
      if k :| ClosedBeside(t, items, i, area, k) && k < n {
        assert ClosedBeside(t, items[..n], i, area, k);
      }
      assert Counts(t, items[n], area, i.id) <==> ClosedBeside(t, items, i, area, n);
    }
  }

  /** Two closed items beside it are counted as two. */
  lemma {:induction false} TwoAreCounted(t: LaneText, items: seq<Item>, area: string, i: Item)
    requires area != ""
    ensures CountClosed(t, items, area, i.id) >= 2 <==> exists j, k :: j < k && ClosedBeside(t, items, i, area, j) && ClosedBeside(t, items, i, area, k)
  {
    if items != [] {
      var n := |items| - 1;
      TwoAreCounted(t, items[..n], area, i);
      OneIsCounted(t, items[..n], area, i);
      assert Counts(t, items[n], area, i.id) <==> ClosedBeside(t, items, i, area, n);
      forall k
        ensures ClosedBeside(t, items[..n], i, area, k) <==> ClosedBeside(t, items, i, area, k) && k < n
      {
      }
      hide ClosedBeside, Counts;
    }
  }

  /** Which rules a completion meets, each by the parameter or text that raises it: thresholds 2 files, 50 lines, 1 path and 2 closed items of the area. */
  lemma RulesSay(t: LaneText, items: seq<Item>, i: Item, p: DoneParams, area: string)
    requires IsJudgedIn(t, i, p, area)
    ensures var rules := Escalation(t, items, i, p);
            && (CoreFiles in rules <==> AtLeast(p.filesChanged, 3))
            && (ChangedLines in rules <==> AtLeast(p.locChanged, 51))
            && (BehaviorPaths in rules <==> AtLeast(p.behaviorPaths, 2))
            && (Architecture in rules
                <==> p.architecture == Some(true) || (p.architecture == None && t.architecture(i.title + "\n" + i.body + "\n" + p.evidence)))
            && (EvidenceMissing in rules <==> p.evidenceMissing == Some(true) || (p.evidenceMissing == None && t.evidenceMissing(p.evidence)))
            && (RepeatedArea in rules
                <==> area != "" && exists j, k :: j < k && ClosedBeside(t, items, i, area, j) && ClosedBeside(t, items, i, area, k))
  {
    assert JudgedArea(t, i, p) == area;
    if area != "" {
      TwoAreCounted(t, items, area, i);
    }
    SizesAreJudged(t, i, p, CountClosed(t, items, area, i.id));
    OthersAreJudged(t, i, p, CountClosed(t, items, area, i.id));
    hide RulesFor, CountClosed, ClosedBeside, JudgedArea, IsJudgedIn, Trim;
    NothingInNoArea(t, items, i.id);
  }

  lemma NothingInNoArea(t: LaneText, items: seq<Item>, id: nat)
    ensures CountClosed(t, items, "", id) == 0
  {
  }

  lemma SizesAreJudged(t: LaneText, i: Item, p: DoneParams, repeated: nat)
    ensures var rules := RulesFor(t, i, p, repeated);
            && (CoreFiles in rules <==> AtLeast(p.filesChanged, 3))
            && (ChangedLines in rules <==> AtLeast(p.locChanged, 51))
            && (BehaviorPaths in rules <==> AtLeast(p.behaviorPaths, 2))
  {
  }

  lemma OthersAreJudged(t: LaneText, i: Item, p: DoneParams, repeated: nat)
    ensures var rules := RulesFor(t, i, p, repeated);
            && (Architecture in rules
                <==> p.architecture == Some(true) || (p.architecture == None && t.architecture(i.title + "\n" + i.body + "\n" + p.evidence)))
            && (EvidenceMissing in rules <==> p.evidenceMissing == Some(true) || (p.evidenceMissing == None && t.evidenceMissing(p.evidence)))
            && (RepeatedArea in rules <==> repeated >= 2)
  {
    hide PositiveInteger;
  }

  // ---------- What the operations leave ----------

  /** The first item with the id. */
  ghost predicate FirstWith(items: seq<Item>, id: nat, k: int) {
    0 <= k < |items| && items[k].id == id && forall j :: 0 <= j < k ==> items[j].id != id
  }

  lemma {:induction false} FirstIsFound(items: seq<Item>, id: nat, k: int)
    ensures FirstWith(items, id, k) <==> k == Find(items, id) < |items|
  {
    if items != [] && items[0].id != id {
      FirstIsFound(items[1..], id, k - 1);
      var rest := items[1..];
      if FirstWith(rest, id, k - 1) {
        forall j | 0 <= j < k
          ensures items[j].id != id
        {
          assert j > 0 ==> items[j] == rest[j - 1];
        }
      }
      if FirstWith(items, id, k) {
        forall j | 0 <= j < k - 1
          ensures rest[j].id != id
        {
          assert rest[j] == items[j + 1];
        }
      }
    }
  }

  /** One item is changed, and keeps its id and title. */
  ghost predicate Changes(items: seq<Item>, after: seq<Item>, k: int, status: Status, body: string) {
    && 0 <= k < |items| && |after| == |items| && (forall j :: 0 <= j < |items| && j != k ==> after[j] == items[j])
    && after[k].id == items[k].id && after[k].title == items[k].title && after[k].status == status && after[k].body == body
  }

  /**
   * A completion: no such item, or a rule met without a dry run, or a promoted item, and nothing changes; otherwise the first item with
   * the id is done, its body tidied and the evidence, if any, noted in it.
   */
  lemma CompletionSays(t: LaneText, items: seq<Item>, p: DoneParams, k: int)
    ensures (forall j :: 0 <= j < |items| ==> items[j].id != p.id) ==> DoneOutcome(t, items, p) == DoneResult.NotFound && AfterDone(t, items, p) == items
    ensures FirstWith(items, p.id, k) ==> (
              var (i, out, after) := (items[k], DoneOutcome(t, items, p), AfterDone(t, items, p));
              var rules := Escalation(t, items, i, p);
              var body := if Blank(p.evidence) then t.tidy(i.body) else t.note(t.tidy(i.body), "evidence: " + Trim(p.evidence));
              if rules != [] && !p.dryRun then out == Escalated(rules) && after == items
              else if i.status == Promoted then out == AlreadyPromoted && after == items
              else out == Completed && Changes(items, after, k, Done, body))
  {
    FirstIsFound(items, p.id, k);
    hide FirstWith, Escalation, Trim, Blank;
    if (forall j :: 0 <= j < |items| ==> items[j].id != p.id) {
      NoneIsFound(items, p.id);
    }
  }

  lemma NoneIsFound(items: seq<Item>, id: nat)
    requires forall j :: 0 <= j < |items| ==> items[j].id != id
    ensures Find(items, id) == |items|
  {
  }

  /** A note changes the body of the first item with the id, unless it is promoted or the note is blank; a promotion promotes it, once, with its line noted. */
  lemma NotesAndPromotionsSay(t: LaneText, items: seq<Item>, id: nat, line: string, k: int)
    requires FirstWith(items, id, k)
    ensures if Blank(line) || items[k].status == Promoted then AfterNote(t, items, id, line) == items
            else Changes(items, AfterNote(t, items, id, line), k, items[k].status, t.note(t.tidy(items[k].body), Trim(line)))
    ensures if items[k].status == Promoted then AfterPromote(t, items, id, line) == items
            else Changes(items, AfterPromote(t, items, id, line), k, Promoted, t.note(t.tidy(items[k].body), line))
  {
    FirstIsFound(items, id, k);
    hide FirstWith, Trim, Blank;
  }

  /** A new item is open, behind the others, under an id higher than all of theirs, with the trimmed title; a blank title or one with control characters adds none. */
  lemma CreationSays(t: LaneText, items: seq<Item>, title: string, note: string)
    ensures if !Blank(title) && forall i :: 0 <= i < |title| ==> title[i] as int >= 32 && title[i] as int != 127 then
              var after := AfterCreate(t, items, title, note);
              && |after| == |items| + 1 && after[..|items|] == items
              && (forall j :: 0 <= j < |items| ==> items[j].id < after[|items|].id)
              && after[|items|].title == Trim(title) && after[|items|].status == Open && after[|items|].body == t.first(Trim(title), note)
            else AfterCreate(t, items, title, note) == items
  {
    NextIdIsHigher(items);
    hide Trim, Blank;
    assert AfterCreate(t, items, title, note)[..|items|] == items;
  }

  lemma {:induction false} NextIdIsHigher(items: seq<Item>)
    ensures NextId(items) >= 1 && forall j :: 0 <= j < |items| ==> items[j].id < NextId(items)
  {
    if items != [] {
      NextIdIsHigher(items[..|items| - 1]);
      assert forall j :: 0 <= j < |items| - 1 ==> items[..|items| - 1][j] == items[j];
    }
  }
}
