/** The debug lane: items, the escalation rules, and strict completion. */
module DebugLane {
  import opened Js

  datatype Status = Open | Done | Promoted

  datatype Item = Item(id: nat, title: string, body: string, status: Status)

  /**
   * What the lane reads out of text and how it edits bodies: the area inferred from title and body (empty when none), the
   * normal form of an area, the body after a line is noted, the body rewritten, and the two text hints.
   */
  datatype LaneText = LaneText(
    infer: (string, string) -> string, normalize: string -> string, first: (string, string) -> string, note: (string, string) -> string,
    tidy: string -> string, architecture: string -> bool, evidenceMissing: string -> bool)

  datatype DoneParams = DoneParams(
    id: nat, area: string, filesChanged: Option<JsNumber>, locChanged: Option<JsNumber>, behaviorPaths: Option<JsNumber>,
    architecture: Option<bool>, evidenceMissing: Option<bool>, evidence: string, dryRun: bool)

  datatype Rule = CoreFiles | ChangedLines | Architecture | BehaviorPaths | EvidenceMissing | RepeatedArea

  datatype DoneResult = NotFound | Escalated(rules: seq<Rule>) | AlreadyPromoted | Completed

  const CORE_FILES_THRESHOLD := 2
  const LOC_THRESHOLD := 50
  const MAX_BEHAVIOR_PATHS := 1
  const REPEAT_AREA_THRESHOLD := 2

  function PositiveInteger(n: Option<JsNumber>): int {
    match n
    case Some(Finite(x)) => Max(0, x.Floor)
    case _ => 0
  }

  /** The position of the item, or the number of items. */
  function Find(items: seq<Item>, id: nat): (k: nat)
    ensures k <= |items| && (k < |items| ==> items[k].id == id)
  {
    if items == [] || items[0].id == id then 0 else 1 + Find(items[1..], id)
  }

  function AreaOf(t: LaneText, i: Item): string {
    t.infer(i.title, i.body)
  }

  predicate Closed(i: Item) {
    i.status.Done? || i.status.Promoted?
  }

  predicate Counts(t: LaneText, i: Item, area: string, exclude: nat) {
    Closed(i) && i.id != exclude && AreaOf(t, i) == area
  }

  /** The closed items of an area besides one; an empty area has none. */
  function CountClosed(t: LaneText, items: seq<Item>, area: string, exclude: nat): nat {
    if area == "" || items == [] then 0
    else
      CountClosed(t, items[..|items| - 1], area, exclude) + if Counts(t, items[|items| - 1], area, exclude) then 1 else 0
  }

  method CountCompleted(t: LaneText, items: seq<Item>, area: string, exclude: nat) returns (n: nat)
    ensures n == CountClosed(t, items, area, exclude)
  {
    n := 0;
    if area == "" {
      return;
    }
    for i := 0 to |items|
      invariant n == CountClosed(t, items[..i], area, exclude)
    {
      assert items[..i + 1][..i] == items[..i];
      if Closed(items[i]) && items[i].id != exclude && AreaOf(t, items[i]) == area {
        n := n + 1;
      }
    }
    assert items[..|items|] == items;
  }

  /** The area a completion is judged by: the caller's if it names one, else the one inferred from the item as it stands. */
  function JudgedArea(t: LaneText, i: Item, p: DoneParams): string {
    var given := if Trim(p.area) == "" then "" else t.normalize(Trim(p.area));
    if given != "" then given else AreaOf(t, i)
  }

  function When(holds: bool, r: Rule): seq<Rule> {
    if holds then [r] else []
  }

  function RulesFor(t: LaneText, i: Item, p: DoneParams, repeated: nat): seq<Rule> {
    When(PositiveInteger(p.filesChanged) > CORE_FILES_THRESHOLD, CoreFiles)
    + When(PositiveInteger(p.locChanged) > LOC_THRESHOLD, ChangedLines)
    + When(if p.architecture.Some? then p.architecture.value else t.architecture(i.title + "\n" + i.body + "\n" + p.evidence), Architecture)
    + When(PositiveInteger(p.behaviorPaths) > MAX_BEHAVIOR_PATHS, BehaviorPaths)
    + When(if p.evidenceMissing.Some? then p.evidenceMissing.value else t.evidenceMissing(p.evidence), EvidenceMissing)
    + When(repeated >= REPEAT_AREA_THRESHOLD, RepeatedArea)
  }

  function Escalation(t: LaneText, items: seq<Item>, i: Item, p: DoneParams): seq<Rule> {
    RulesFor(t, i, p, CountClosed(t, items, JudgedArea(t, i, p), i.id))
  }

  function CompletedItem(t: LaneText, i: Item, evidence: string): Item {
    i.(status := Done, body := if Blank(evidence) then t.tidy(i.body) else t.note(t.tidy(i.body), "evidence: " + Trim(evidence)))
  }

  function DoneOutcome(t: LaneText, items: seq<Item>, p: DoneParams): DoneResult {
    var k := Find(items, p.id);
    if k == |items| then NotFound
    else
      var rules := Escalation(t, items, items[k], p);
      if rules != [] && !p.dryRun then Escalated(rules)
      else if items[k].status.Promoted? then AlreadyPromoted
      else Completed
  }

  function AfterDone(t: LaneText, items: seq<Item>, p: DoneParams): seq<Item> {
    var k := Find(items, p.id);
    if DoneOutcome(t, items, p).Completed? then items[k := CompletedItem(t, items[k], p.evidence)] else items
  }

  function NextId(items: seq<Item>): nat {
    if items == [] then 1 else Max(NextId(items[..|items| - 1]), items[|items| - 1].id + 1)
  }

  function NotedItem(t: LaneText, i: Item, line: string): Item {
    i.(body := t.note(t.tidy(i.body), Trim(line)))
  }

  function AfterNote(t: LaneText, items: seq<Item>, id: nat, line: string): seq<Item> {
    var k := Find(items, id);
    if Blank(line) || k == |items| || items[k].status.Promoted? then items
    else items[k := NotedItem(t, items[k], line)]
  }

  function AfterPromote(t: LaneText, items: seq<Item>, id: nat, line: string): seq<Item> {
    var k := Find(items, id);
    if k == |items| || items[k].status.Promoted? then items
    else items[k := items[k].(status := Promoted, body := t.note(t.tidy(items[k].body), line))]
  }

  predicate ValidTitle(title: string) {
    !Blank(title) && forall i :: 0 <= i < |title| ==> ' ' <= title[i] && title[i] != '\U{007F}'
  }

  function AfterCreate(t: LaneText, items: seq<Item>, title: string, note: string): seq<Item> {
    if ValidTitle(title) then items + [Item(NextId(items), Trim(title), t.first(Trim(title), note), Open)] else items
  }

  class DebugItems {
    const text: LaneText
    var items: seq<Item>

    constructor (text: LaneText)
      ensures this.text == text && items == []
    {
      this.text := text;
      items := [];
    }

    method FindItem(id: nat) returns (k: nat)
      ensures k == Find(items, id)
    {
      k := 0;
      while k < |items| && items[k].id != id
        invariant k <= |items|
        invariant Find(items, id) == k + Find(items[k..], id)
      {
        k := k + 1;
      }
    }

    method Create(title: string, note: string)
      modifies this
      ensures items == AfterCreate(text, old(items), title, note)
    {
      if ValidTitle(title) {
        var next := 1;
        for i := 0 to |items|
          invariant next == NextId(items[..i])
        {
          assert items[..i + 1][..i] == items[..i];
          next := Max(next, items[i].id + 1);
        }
        assert items[..|items|] == items;
        items := items + [Item(next, Trim(title), text.first(Trim(title), note), Open)];
      }
    }

    /** Strict or dry-run completion: judge first, then either report the rules or complete. */
    method RunDone(p: DoneParams) returns (out: DoneResult)
      modifies this
      ensures out == DoneOutcome(text, old(items), p) && items == AfterDone(text, old(items), p)
    {
      var k := FindItem(p.id);
      if k == |items| {
        return NotFound;
      }
      var area := JudgedArea(text, items[k], p);
      var repeated := CountCompleted(text, items, area, items[k].id);
      var rules := RulesFor(text, items[k], p, repeated);
      if rules != [] && !p.dryRun {
        return Escalated(rules);
      }
      if items[k].status.Promoted? {
        return AlreadyPromoted;
      }
      items := items[k := CompletedItem(text, items[k], p.evidence)];
      out := Completed;
    }

    method Note(id: nat, line: string)
      modifies this
      ensures items == AfterNote(text, old(items), id, line)
    {
      var k := FindItem(id);
      if !Blank(line) && k < |items| && !items[k].status.Promoted? {
        items := items[k := NotedItem(text, items[k], line)];
      }
    }

    method Promote(id: nat, line: string)
      modifies this
      ensures items == AfterPromote(text, old(items), id, line)
    {
      var k := FindItem(id);
      if k < |items| && !items[k].status.Promoted? {
        items := items[k := items[k].(status := Promoted, body := text.note(text.tidy(items[k].body), line))];
      }
    }
  }
}
