/** How many fixes of one area the debug lane can complete, and when the bound fails. */
module DebugChain {
  import opened Js
  import opened DebugLane

  datatype Op =
    | Create(title: string, note: string)
    | Note(id: nat, line: string)
    | Finish(p: DoneParams)
    | Promote(id: nat, line: string)

  function Apply(t: LaneText, items: seq<Item>, op: Op): seq<Item> {
    match op
    case Create(title, note) => AfterCreate(t, items, title, note)
    case Note(id, line) => AfterNote(t, items, id, line)
    case Finish(p) => AfterDone(t, items, p)
    case Promote(id, line) => AfterPromote(t, items, id, line)
  }

  function Run(t: LaneText, ops: seq<Op>): seq<Item> {
    if ops == [] then [] else Apply(t, Run(t, ops[..|ops| - 1]), ops[|ops| - 1])
  }

  predicate DoneIn(t: LaneText, i: Item, area: string) {
    i.status.Done? && AreaOf(t, i) == area
  }

  function CountDone(t: LaneText, items: seq<Item>, area: string): nat {
    if items == [] then 0 else CountDone(t, items[..|items| - 1], area) + if DoneIn(t, items[|items| - 1], area) then 1 else 0
  }

  predicate Unique(items: seq<Item>) {
    forall i, j :: 0 <= i < j < |items| ==> items[i].id != items[j].id
  }

  // ---------- Counting ----------

  lemma {:induction false} CountAfterUpdate(t: LaneText, items: seq<Item>, k: nat, x: Item, area: string)
    requires k < |items|
    ensures CountDone(t, items[k := x], area)
            == CountDone(t, items, area) - (if DoneIn(t, items[k], area) then 1 else 0) + (if DoneIn(t, x, area) then 1 else 0)
  {
    hide DoneIn;
    var n := |items| - 1;
    if k < n {
      assert items[k := x][..n] == items[..n][k := x];
      CountAfterUpdate(t, items[..n], k, x, area);
    } else {
      assert items[k := x][..n] == items[..n];
    }
  }

  lemma CountAfterAppend(t: LaneText, items: seq<Item>, x: Item, area: string)
    ensures CountDone(t, items + [x], area) == CountDone(t, items, area) + if DoneIn(t, x, area) then 1 else 0
  {
    assert (items + [x])[..|items|] == items;
  }

  /** The done items of an area other than one item are among the closed ones counted for it. */
  lemma {:induction false} OthersAreCounted(t: LaneText, items: seq<Item>, area: string, id: nat)
    requires area != "" && Unique(items)
    ensures CountDone(t, items, area) <= CountClosed(t, items, area, id) + (if exists k :: 0 <= k < |items| && items[k].id == id && DoneIn(t, items[k], area) then 1 else 0)
  {
    if items != [] {
      var n := |items| - 1;
      OthersAreCounted(t, items[..n], area, id);
      var last := items[n];
      if last.id == id {
        assert forall k :: 0 <= k < n ==> items[..n][k].id != id;
        if DoneIn(t, last, area) {
          assert items[n].id == id;
        }
      } else {
        if exists k :: 0 <= k < n && items[..n][k].id == id && DoneIn(t, items[..n][k], area) {
          var k :| 0 <= k < n && items[..n][k].id == id && DoneIn(t, items[..n][k], area);
          assert items[k].id == id;
        }
      }
    }
  }

  // ---------- Identity ----------

  lemma {:induction false} NextIdIsFresh(items: seq<Item>)
    ensures forall i :: 0 <= i < |items| ==> items[i].id < NextId(items)
  {
    if items != [] {
      NextIdIsFresh(items[..|items| - 1]);
    }
  }

  lemma IdsStayUnique(t: LaneText, items: seq<Item>, op: Op)
    requires Unique(items)
    ensures Unique(Apply(t, items, op))
  {
    NextIdIsFresh(items);
    hide NextId, ValidTitle, DoneOutcome;
    match op
    case Create(title, note) =>
    case Note(id, line) =>
    case Finish(p) => CompletedWasFound(t, items, p);
    case Promote(id, line) =>
  }

  // ---------- One completion ----------

  /** A blocked, failed or refused completion changes no item. */
  lemma BlockedChangesNothing(t: LaneText, items: seq<Item>, p: DoneParams)
    requires !DoneOutcome(t, items, p).Completed?
    ensures AfterDone(t, items, p) == items
  {
  }

  /** What a strict completion establishes: fewer than two other closed items in the area it was judged by. */
  lemma StrictCompletionWasBelowThreshold(t: LaneText, items: seq<Item>, p: DoneParams)
    requires DoneOutcome(t, items, p).Completed? && !p.dryRun
    ensures var i := items[Find(items, p.id)]; CountClosed(t, items, JudgedArea(t, i, p), i.id) < 2
  {
    hide CountClosed, JudgedArea, PositiveInteger;
  }

  ghost predicate Bounded(t: LaneText, items: seq<Item>) {
    forall area :: area != "" ==> CountDone(t, items, area) <= 2
  }

  /** Where the completed item ends up, as later histories will see it. */
  function LandedArea(t: LaneText, items: seq<Item>, p: DoneParams): string
    requires DoneOutcome(t, items, p).Completed?
  {
    AreaOf(t, CompletedItem(t, items[Find(items, p.id)], p.evidence))
  }

  /** The area of the done item `x` has room for it at `k`: it names none, it is there already, or the area is not full. */
  predicate HasRoom(t: LaneText, items: seq<Item>, k: nat, x: Item)
    requires k < |items|
  {
    AreaOf(t, x) == "" || DoneIn(t, items[k], AreaOf(t, x)) || CountDone(t, items, AreaOf(t, x)) < 2
  }

  lemma DoneUpdateKeepsBoundIff(t: LaneText, items: seq<Item>, k: nat, x: Item)
    requires Bounded(t, items) && k < |items| && x.status.Done?
    ensures Bounded(t, items[k := x]) <==> HasRoom(t, items, k, x)
  {
    var after, landed := items[k := x], AreaOf(t, x);
    forall area
      ensures CountDone(t, after, area)
              == CountDone(t, items, area) - (if DoneIn(t, items[k], area) then 1 else 0) + (if area == landed then 1 else 0)
    {
      CountAfterUpdate(t, items, k, x, area);
    }
    if HasRoom(t, items, k, x) {
      forall area | area != ""
        ensures CountDone(t, after, area) <= 2
      {
        assert CountDone(t, items, area) <= 2;
      }
    } else {
      assert CountDone(t, after, landed) == CountDone(t, items, landed) + 1;
    }
    hide CountDone;
  }

  /**
   * A completion, of an open item or again of a done one, keeps the bound exactly when the area the item lands in, after its
   * evidence is written into its body, had room for it. A strict completion always does when
   * that is the area it was judged by.
   */
  lemma CompletionKeepsBoundIff(t: LaneText, items: seq<Item>, p: DoneParams)
    requires Unique(items) && Bounded(t, items) && DoneOutcome(t, items, p).Completed?
    ensures Bounded(t, AfterDone(t, items, p))
            <==> HasRoom(t, items, Find(items, p.id), CompletedItem(t, items[Find(items, p.id)], p.evidence))
    ensures !p.dryRun && LandedArea(t, items, p) == JudgedArea(t, items[Find(items, p.id)], p) ==> Bounded(t, AfterDone(t, items, p))
  {
    var k := Find(items, p.id);
    var x := CompletedItem(t, items[k], p.evidence);
    DoneUpdateKeepsBoundIff(t, items, k, x);
    var landed := LandedArea(t, items, p);
    if !p.dryRun && landed != "" {
      StrictCompletionWasBelowThreshold(t, items, p);
      OthersInArea(t, items, k, landed);
    }
    hide CountDone, CountClosed, JudgedArea, DoneOutcome, Bounded, CompletedItem;
  }

  lemma OthersInArea(t: LaneText, items: seq<Item>, k: nat, area: string)
    requires area != "" && Unique(items) && k < |items|
    ensures CountDone(t, items, area) <= CountClosed(t, items, area, items[k].id) + if DoneIn(t, items[k], area) then 1 else 0
  {
    OthersAreCounted(t, items, area, items[k].id);
    assert forall j :: 0 <= j < |items| && items[j].id == items[k].id ==> j == k;
    hide CountDone, CountClosed;
  }

  /** A note keeps the bound exactly when it is refused, meets no done item, or leaves the done item in an area with room for it. */
  lemma NoteKeepsBoundIff(t: LaneText, items: seq<Item>, id: nat, line: string)
    requires Bounded(t, items)
    ensures var k := Find(items, id);
            Bounded(t, AfterNote(t, items, id, line))
            <==> Blank(line) || k == |items| || !items[k].status.Done? || HasRoom(t, items, k, NotedItem(t, items[k], line))
  {
    hide Blank, Bounded;
    var k := Find(items, id);
    if !Blank(line) && k < |items| {
      if items[k].status.Done? {
        DoneUpdateKeepsBoundIff(t, items, k, NotedItem(t, items[k], line));
      } else {
        UpdateKeepsBound(t, items, AfterNote(t, items, id, line), k);
      }
    }
  }

  // ---------- Runs ----------

  /**
   * A step that keeps areas where they are: notes leave the area of a done item, and a strict completion
   * lands in the area it was judged by.
   */
  predicate Settled(t: LaneText, items: seq<Item>, op: Op) {
    match op
    case Create(_, _) => true
    case Promote(_, _) => true
    case Note(id, line) =>
      var k := Find(items, id);
      k < |items| && items[k].status.Done? ==> AreaOf(t, NotedItem(t, items[k], line)) == AreaOf(t, items[k])
    case Finish(p) =>
      var k := Find(items, p.id);
      DoneOutcome(t, items, p).Completed? ==>
        !p.dryRun && LandedArea(t, items, p) == if items[k].status.Open? then JudgedArea(t, items[k], p) else AreaOf(t, items[k])
  }

  lemma SettledStepsKeepBound(t: LaneText, items: seq<Item>, op: Op)
    requires Unique(items) && Bounded(t, items) && Settled(t, items, op)
    ensures Bounded(t, Apply(t, items, op))
  {
    match op
    case Create(title, note) =>
      if ValidTitle(title) {
        var x := Item(NextId(items), Trim(title), t.first(Trim(title), note), Open);
        forall area
          ensures CountDone(t, AfterCreate(t, items, title, note), area) == CountDone(t, items, area)
        {
          CountAfterAppend(t, items, x, area);
        }
      }
    case Note(id, line) => UpdateKeepsBound(t, items, AfterNote(t, items, id, line), Find(items, id));
    case Promote(id, line) => UpdateKeepsBound(t, items, AfterPromote(t, items, id, line), Find(items, id));
    case Finish(p) =>
      if DoneOutcome(t, items, p).Completed? {
        CompletionKeepsBoundIff(t, items, p);
      }
  }

  /** An update that adds no done item to any area keeps the bound. */
  lemma UpdateKeepsBound(t: LaneText, items: seq<Item>, after: seq<Item>, k: nat)
    requires Bounded(t, items)
    requires after == items || (k < |items| == |after| && after == items[k := after[k]]
                                && (after[k].status.Done? ==> items[k].status.Done? && AreaOf(t, after[k]) == AreaOf(t, items[k])))
    ensures Bounded(t, after)
  {
    if after != items {
      forall area
        ensures CountDone(t, after, area) <= CountDone(t, items, area)
      {
        CountAfterUpdate(t, items, k, after[k], area);
      }
    }
  }

  /** However creates, notes, promotions and strict completions are mixed: with areas kept, no area ever has more than two done items. */
  lemma {:induction false} ChainIsBounded(t: LaneText, ops: seq<Op>)
    requires forall n :: 0 <= n < |ops| ==> Settled(t, Run(t, ops[..n]), ops[n])
    ensures Unique(Run(t, ops)) && Bounded(t, Run(t, ops))
  {
    if ops != [] {
      var n := |ops| - 1;
      assert forall m :: 0 <= m < n ==> ops[..n][..m] == ops[..m];
      ChainIsBounded(t, ops[..n]);
      IdsStayUnique(t, Run(t, ops[..n]), ops[n]);
      SettledStepsKeepBound(t, Run(t, ops[..n]), ops[n]);
      hide Settled, Apply, Bounded;
    }
  }

  /** The step leaves every done item in an area with room for it. */
  predicate StepHasRoom(t: LaneText, items: seq<Item>, op: Op) {
    match op
    case Create(_, _) => true
    case Promote(_, _) => true
    case Note(id, line) =>
      var k := Find(items, id);
      Blank(line) || k == |items| || !items[k].status.Done? || HasRoom(t, items, k, NotedItem(t, items[k], line))
    case Finish(p) =>
      var k := Find(items, p.id);
      DoneOutcome(t, items, p).Completed? ==> HasRoom(t, items, k, CompletedItem(t, items[k], p.evidence))
  }

  lemma StepKeepsBoundIff(t: LaneText, items: seq<Item>, op: Op)
    requires Unique(items) && Bounded(t, items)
    ensures Bounded(t, Apply(t, items, op)) <==> StepHasRoom(t, items, op)
  {
    hide Bounded, HasRoom;
    match op
    case Create(title, note) => SettledStepsKeepBound(t, items, op);
    case Promote(id, line) => SettledStepsKeepBound(t, items, op);
    case Note(id, line) => NoteKeepsBoundIff(t, items, id, line);
    case Finish(p) =>
      if DoneOutcome(t, items, p).Completed? {
        CompletionKeepsBoundIff(t, items, p);
      } else {
        BlockedChangesNothing(t, items, p);
      }
  }

  ghost predicate AlwaysBounded(t: LaneText, ops: seq<Op>) {
    forall n :: 0 <= n <= |ops| ==> Bounded(t, Run(t, ops[..n]))
  }

  ghost predicate AlwaysRoom(t: LaneText, ops: seq<Op>) {
    forall n :: 0 <= n < |ops| ==> StepHasRoom(t, Run(t, ops[..n]), ops[n])
  }

  /** A run, of strict or dry-run completions and anything else, stays within the bound throughout exactly when each of its steps had room. */
  lemma {:induction false} ChainIsBoundedIff(t: LaneText, ops: seq<Op>)
    ensures AlwaysBounded(t, ops) <==> AlwaysRoom(t, ops)
    ensures Unique(Run(t, ops))
  {
    hide Bounded, StepHasRoom, Apply, Unique;
    if ops == [] {
      EmptyIsBounded(t);
    } else {
      hide AlwaysBounded, AlwaysRoom;
      var n := |ops| - 1;
      ChainIsBoundedIff(t, ops[..n]);
      IdsStayUnique(t, Run(t, ops[..n]), ops[n]);
      if Bounded(t, Run(t, ops[..n])) {
        StepKeepsBoundIff(t, Run(t, ops[..n]), ops[n]);
      }
      AlwaysSplits(t, ops);
    }
  }

  lemma EmptyIsBounded(t: LaneText)
    ensures Bounded(t, Run(t, [])) && Unique(Run(t, []))
  {
  }

  lemma AlwaysSplits(t: LaneText, ops: seq<Op>)
    requires ops != []
    ensures var n := |ops| - 1;
            && (AlwaysBounded(t, ops) <==> AlwaysBounded(t, ops[..n]) && Bounded(t, Run(t, ops)))
            && (AlwaysRoom(t, ops) <==> AlwaysRoom(t, ops[..n]) && StepHasRoom(t, Run(t, ops[..n]), ops[n]))
            && (AlwaysBounded(t, ops[..n]) ==> Bounded(t, Run(t, ops[..n])))
  {
    hide Bounded, StepHasRoom, Run, AlwaysBounded, AlwaysRoom;
    BoundedSplits(t, ops);
    RoomSplits(t, ops);
    LastIsBounded(t, ops[..|ops| - 1]);
  }

  lemma LastIsBounded(t: LaneText, ops: seq<Op>)
    ensures AlwaysBounded(t, ops) ==> Bounded(t, Run(t, ops))
  {
    hide Bounded, Run;
    assert ops[..|ops|] == ops;
  }

  lemma BoundedSplits(t: LaneText, ops: seq<Op>)
    requires ops != []
    ensures AlwaysBounded(t, ops) <==> AlwaysBounded(t, ops[..|ops| - 1]) && Bounded(t, Run(t, ops))
  {
    hide Bounded, Run;
    var front := ops[..|ops| - 1];
    LastIsBounded(t, ops);
    if AlwaysBounded(t, ops) {
      forall m | 0 <= m <= |front|
        ensures Bounded(t, Run(t, front[..m]))
      {
        assert front[..m] == ops[..m];
      }
    }
    if AlwaysBounded(t, front) && Bounded(t, Run(t, ops)) {
      forall m | 0 <= m <= |ops|
        ensures Bounded(t, Run(t, ops[..m]))
      {
        if m < |ops| {
          assert front[..m] == ops[..m];
        } else {
          assert ops[..m] == ops;
        }
      }
    }
  }

  lemma RoomSplits(t: LaneText, ops: seq<Op>)
    requires ops != []
    ensures var n := |ops| - 1; AlwaysRoom(t, ops) <==> AlwaysRoom(t, ops[..n]) && StepHasRoom(t, Run(t, ops[..n]), ops[n])
  {
    hide StepHasRoom, Run;
    var front := ops[..|ops| - 1];
    if AlwaysRoom(t, ops) {
      forall m | 0 <= m < |front|
        ensures StepHasRoom(t, Run(t, front[..m]), front[m])
      {
        assert front[..m] == ops[..m] && front[m] == ops[m];
      }
    }
    if AlwaysRoom(t, front) && StepHasRoom(t, Run(t, front), ops[|front|]) {
      forall m | 0 <= m < |ops|
        ensures StepHasRoom(t, Run(t, ops[..m]), ops[m])
      {
        if m < |front| {
          assert front[..m] == ops[..m] && front[m] == ops[m];
        }
      }
    }
  }

  /** Text edits that never move an item to another area. */
  ghost predicate AreasAreFixed(t: LaneText) {
    forall title, body, line :: EditsKeepArea(t, title, body, line)
  }

  predicate EditsKeepArea(t: LaneText, title: string, body: string, line: string) {
    t.infer(title, t.tidy(body)) == t.infer(title, t.note(t.tidy(body), line)) == t.infer(title, body)
  }

  /** With areas fixed by their items, every run of strict completions that names no area of its own is bounded. */
  lemma {:induction false} FixedAreasAreBounded(t: LaneText, ops: seq<Op>)
    requires AreasAreFixed(t)
    requires forall n :: 0 <= n < |ops| && ops[n].Finish? ==> !ops[n].p.dryRun && Blank(ops[n].p.area)
    ensures Bounded(t, Run(t, ops))
  {
    forall n | 0 <= n < |ops|
      ensures Settled(t, Run(t, ops[..n]), ops[n])
    {
      FixedAreasSettle(t, Run(t, ops[..n]), ops[n]);
      hide Settled, Run, AreasAreFixed;
    }
    ChainIsBounded(t, ops);
  }

  lemma FixedAreasSettle(t: LaneText, items: seq<Item>, op: Op)
    requires AreasAreFixed(t) && (op.Finish? ==> !op.p.dryRun && Blank(op.p.area))
    ensures Settled(t, items, op)
  {
    hide DoneOutcome, Trim;
    match op
    case Create(_, _) =>
    case Promote(_, _) =>
    case Note(id, line) =>
      var k := Find(items, id);
      assert k < |items| ==> EditsKeepArea(t, items[k].title, items[k].body, Trim(line));
    case Finish(p) =>
      var k := Find(items, p.id);
      assert k < |items| ==> EditsKeepArea(t, items[k].title, items[k].body, "evidence: " + Trim(p.evidence));
      CompletedWasFound(t, items, p);
  }

  lemma CompletedWasFound(t: LaneText, items: seq<Item>, p: DoneParams)
    ensures DoneOutcome(t, items, p).Completed? ==> Find(items, p.id) < |items|
  {
  }

  /**
   * The evidence text itself can break the bound: an open item of no area, completed strictly with evidence that makes its
   * body name an area that already has two done items, becomes the third.
   */
  lemma EvidenceBreaksBound(t: LaneText, items: seq<Item>, p: DoneParams)
    requires Unique(items) && Bounded(t, items) && Find(items, p.id) < |items|
    requires var i := items[Find(items, p.id)];
             && i.status.Open? && JudgedArea(t, i, p) == "" && !p.dryRun && RulesFor(t, i, p, 0) == []
             && AreaOf(t, CompletedItem(t, i, p.evidence)) != ""
             && CountDone(t, items, AreaOf(t, CompletedItem(t, i, p.evidence))) == 2
    ensures DoneOutcome(t, items, p).Completed? && !Bounded(t, AfterDone(t, items, p))
  {
    hide RulesFor, JudgedArea, CompletedItem, AreaOf;
    assert DoneOutcome(t, items, p).Completed?;
    CompletionKeepsBoundIff(t, items, p);
  }

  // ---------- Runs that escape the bound ----------

  /** A strict completion that names no area and takes a position on the two hints. */
  function Plainly(id: nat, evidence: string): Op {
    Finish(DoneParams(id, "", None, None, None, Some(false), Some(false), evidence, false))
  }

  /** Create an item without a note and complete it, `n` times. */
  function Rounds(title: string, evidence: string, n: nat): seq<Op> {
    if n == 0 then [] else Rounds(title, evidence, n - 1) + [Create(title, "")] + [Plainly(n, evidence)]
  }

  function FreshItem(t: LaneText, title: string, id: nat): Item {
    Item(id, Trim(title), t.first(Trim(title), ""), Open)
  }

  function DoneItems(t: LaneText, title: string, evidence: string, n: nat): seq<Item> {
    if n == 0 then []
    else DoneItems(t, title, evidence, n - 1) + [CompletedItem(t, FreshItem(t, title, n), evidence)]
  }

  /** A title of no area, and an evidence line that moves its item into one. */
  predicate MovesInto(t: LaneText, title: string, evidence: string, area: string) {
    && ValidTitle(title) && area != ""
    && AreaOf(t, FreshItem(t, title, 0)) == "" && AreaOf(t, CompletedItem(t, FreshItem(t, title, 0), evidence)) == area
  }

  lemma {:induction false} DoneItemsAre(t: LaneText, title: string, evidence: string, area: string, n: nat)
    requires MovesInto(t, title, evidence, area)
    ensures var items := DoneItems(t, title, evidence, n);
            && |items| == n && NextId(items) == n + 1 && CountDone(t, items, area) == n
            && forall i :: 0 <= i < n ==> items[i].id == i + 1
  {
    if n > 0 {
      var front, x := DoneItems(t, title, evidence, n - 1), CompletedItem(t, FreshItem(t, title, n), evidence);
      DoneItemsAre(t, title, evidence, area, n - 1);
      assert (front + [x])[..n - 1] == front;
      assert DoneIn(t, x, area);
      hide DoneItems, ValidTitle, Trim;
    }
  }

  lemma {:induction false} FindsLast(items: seq<Item>, x: Item)
    requires forall i :: 0 <= i < |items| ==> items[i].id != x.id
    ensures Find(items + [x], x.id) == |items|
  {
    if items != [] {
      assert (items + [x])[1..] == items[1..] + [x];
      FindsLast(items[1..], x);
    }
  }

  lemma Judged(t: LaneText, title: string, evidence: string, area: string, id: nat)
    requires MovesInto(t, title, evidence, area)
    ensures var (x, p) := (FreshItem(t, title, id), Plainly(id, evidence).p); JudgedArea(t, x, p) == "" && RulesFor(t, x, p, 0) == []
  {
    assert Trim("") == "";
    hide Trim, ValidTitle;
  }

  lemma ReplaceLast<T>(items: seq<T>, x: T, y: T)
    ensures (items + [x])[|items| := y] == items + [y] && (items + [x])[|items|] == x
  {
  }

  lemma OneRound(t: LaneText, title: string, evidence: string, area: string, n: nat)
    requires MovesInto(t, title, evidence, area)
    ensures var (items, x) := (DoneItems(t, title, evidence, n), FreshItem(t, title, n + 1));
            && AfterCreate(t, items, title, "") == items + [x]
            && AfterDone(t, items + [x], Plainly(n + 1, evidence).p) == DoneItems(t, title, evidence, n + 1)
  {
    hide ValidTitle, RulesFor, JudgedArea, CompletedItem, Find, NextId, DoneItems, CountDone, FreshItem, MovesInto;
    var items, x := DoneItems(t, title, evidence, n), FreshItem(t, title, n + 1);
    DoneItemsAre(t, title, evidence, area, n);
    Created(t, items, title, evidence, area);
    FreshId(t, title, n + 1);
    FindsLast(items, x);
    ReplaceLast(items, x, CompletedItem(t, x, evidence));
    Judged(t, title, evidence, area, n + 1);
    OneMoreItem(t, title, evidence, n);
  }

  lemma Created(t: LaneText, items: seq<Item>, title: string, evidence: string, area: string)
    requires MovesInto(t, title, evidence, area)
    ensures AfterCreate(t, items, title, "") == items + [FreshItem(t, title, NextId(items))]
  {
    hide ValidTitle, Trim;
  }

  lemma FreshId(t: LaneText, title: string, id: nat)
    ensures FreshItem(t, title, id).id == id && FreshItem(t, title, id).status.Open?
  {
  }

  lemma OneMoreItem(t: LaneText, title: string, evidence: string, n: nat)
    ensures DoneItems(t, title, evidence, n + 1) == DoneItems(t, title, evidence, n) + [CompletedItem(t, FreshItem(t, title, n + 1), evidence)]
  {
    hide CompletedItem, FreshItem;
  }

  lemma TwoMore(t: LaneText, front: seq<Op>, a: Op, b: Op)
    ensures Run(t, front + [a] + [b]) == Apply(t, Apply(t, Run(t, front), a), b)
  {
    assert (front + [a] + [b])[..|front| + 1] == front + [a] && (front + [a])[..|front|] == front;
    hide Apply;
  }

  /**
   * Strict completions alone do not bound an area that evidence can move items into: whatever the text functions, if some title
   * has no area and some evidence line gives it one, then for every number there is a run that puts
   * that many done items there.
   */
  lemma {:induction false} EvidenceEscapesEveryBound(t: LaneText, title: string, evidence: string, area: string, n: nat)
    requires MovesInto(t, title, evidence, area)
    ensures Run(t, Rounds(title, evidence, n)) == DoneItems(t, title, evidence, n)
    ensures CountDone(t, Run(t, Rounds(title, evidence, n)), area) == n
  {
    hide AfterCreate, AfterDone, CountDone, MovesInto;
    DoneItemsAre(t, title, evidence, area, n);
    if n > 0 {
      hide Run, Rounds, DoneItems;
      EvidenceEscapesEveryBound(t, title, evidence, area, n - 1);
      OneMoreRound(title, evidence, n);
      TwoMore(t, Rounds(title, evidence, n - 1), Create(title, ""), Plainly(n, evidence));
      OneRound(t, title, evidence, area, n - 1);
    }
  }

  lemma OneMoreRound(title: string, evidence: string, n: nat)
    requires n > 0
    ensures Rounds(title, evidence, n) == Rounds(title, evidence, n - 1) + [Create(title, "")] + [Plainly(n, evidence)]
  {
  }
}
