/** The acceptance/evidence matrix as it stands in the plan file: which words of a row the reader takes and what they mean to the lock. */
module MatrixWords {
  import opened Js
  import opened Json
  import opened EvidenceMatrix
  import opened MatrixRoundTrip
  import opened MatrixRules
  import opened PlanStore
  import opened PlanLock

  // ---------- The words ----------

  predicate KindWord(w: string) {
    w == "runtime-behavior" || w == "planning-artifact" || w == "documentation" || w == "configuration" || w == "test-infrastructure"
    || w == "manual-process"
  }

  predicate LevelWord(w: string) {
    w == "prompt-only" || w == "config-default" || w == "runtime-gate" || w == "behavior-test" || w == "manual-validation"
    || w == "regression-proof"
  }

  predicate RoleWord(w: string) {
    w == "implementation" || w == "evidence-test" || w == "behavior" || w == "regression" || w == "maintainability" || w == "docs-config"
  }

  /** Required evidence that only a run can give. */
  predicate RunWord(w: string) {
    w == "behavior-test" || w == "runtime-gate-test" || w == "regression-test" || w == "unit-test"
  }

  predicate PeopleWord(w: string) {
    w == "reviewer-approval" || w == "manual-validation"
  }

  predicate EvidenceWord(w: string) {
    RunWord(w) || PeopleWord(w) || w == "artifact" || w == "diff" || w == "static-check"
  }

  function TextAt(j: Json, key: string): string {
    Text(Get(Some(j), key))
  }

  function TextsAt(j: Json, key: string): seq<string> {
    Texts(Get(Some(j), key))
  }

  function ItemsAt(j: Json, key: string): seq<Json> {
    Items(Get(Some(j), key))
  }

  /** A well-formed item of required evidence. */
  predicate IsItem(o: Json) {
    EvidenceWord(TextAt(o, "kind")) && TextAt(o, "description") != ""
  }

  /** A row the reader takes; items of its evidence that are not well formed are dropped. */
  predicate IsRow(j: Json) {
    && TextAt(j, "criterion") != "" && KindWord(TextAt(j, "criterionKind")) && TextAt(j, "businessRiskIfWrong") != ""
    && TextsAt(j, "enforcementLevel") != [] && (forall i :: 0 <= i < |TextsAt(j, "enforcementLevel")| ==> LevelWord(TextsAt(j, "enforcementLevel")[i]))
    && (exists i :: 0 <= i < |ItemsAt(j, "requiredEvidence")| && IsItem(ItemsAt(j, "requiredEvidence")[i]))
    && TextsAt(j, "reviewerRoles") != [] && (forall i :: 0 <= i < |TextsAt(j, "reviewerRoles")| ==> RoleWord(TextsAt(j, "reviewerRoles")[i]))
    && TextsAt(j, "blockingConditions") != []
  }

  // ---------- Reading the words ----------

  lemma KindWords(w: string)
    ensures KindNamed(w).Some? <==> KindWord(w)
    ensures KindNamed(w) == Some(RuntimeBehavior) <==> w == "runtime-behavior"
    ensures KindNamed(w) == Some(Documentation) <==> w == "documentation"
    ensures KindNamed(w) == Some(Configuration) <==> w == "configuration"
  {
  }

  lemma LevelWords(w: string)
    ensures LevelNamed(w).Some? <==> LevelWord(w)
    ensures LevelNamed(w) == Some(PromptOnly) <==> w == "prompt-only"
  {
  }

  function WordOf(r: Role): string {
    match r
    case Behavior => "behavior"
    case Implementation => "implementation"
    case EvidenceTest => "evidence-test"
    case Maintainability => "maintainability"
    case Regression => "regression"
    case DocsConfig => "docs-config"
  }

  lemma RoleWords(w: string, r: Role)
    ensures RoleNamed(w).Some? <==> RoleWord(w)
    ensures RoleNamed(w) == Some(r) <==> w == WordOf(r)
  {
  }

  lemma EvidenceIsKnown(w: string)
    ensures RequiredNamed(w).Some? <==> EvidenceWord(w)
  {
  }

  lemma EvidenceGroups(w: string)
    requires RequiredNamed(w).Some?
    ensures var k := RequiredNamed(w).value;
            && (k in {BehaviorTest, RuntimeGateTest, RegressionTest, UnitTest} <==> RunWord(w))
            && (k in {ReviewerApproval, ManualValidation} <==> PeopleWord(w))
  {
  }

  lemma {:induction false} LevelsAreRead(texts: seq<string>)
    ensures ReadLevels(texts).Some? <==> forall i :: 0 <= i < |texts| ==> LevelWord(texts[i])
    ensures ReadLevels(texts).Some? ==> |ReadLevels(texts).value| == |texts|
    ensures ReadLevels(texts).Some? ==> forall i :: 0 <= i < |texts| ==> (ReadLevels(texts).value[i] == PromptOnly <==> texts[i] == "prompt-only")
  {
    hide LevelNamed, LevelWord;
    if texts != [] {
      LevelsAreRead(texts[..|texts| - 1]);
      LevelWords(texts[|texts| - 1]);
    }
  }

  lemma {:induction false} RolesAreRead(texts: seq<string>, r: Role)
    ensures ReadRoles(texts).Some? <==> forall i :: 0 <= i < |texts| ==> RoleWord(texts[i])
    ensures ReadRoles(texts).Some? ==> |ReadRoles(texts).value| == |texts|
    ensures ReadRoles(texts).Some? ==> forall i :: 0 <= i < |texts| ==> (ReadRoles(texts).value[i] == r <==> texts[i] == WordOf(r))
  {
    hide RoleNamed, RoleWord, WordOf;
    if texts != [] {
      RolesAreRead(texts[..|texts| - 1], r);
      RoleWords(texts[|texts| - 1], r);
    }
  }

  lemma ItemIsRead(o: Json)
    ensures ReadItem(o).value.Some? <==> IsItem(o)
    ensures ReadItem(o).issues == [] <==> IsItem(o)
    ensures IsItem(o) ==> ReadItem(o).value.value.description == TextAt(o, "description")
                          && Some(ReadItem(o).value.value.kind) == RequiredNamed(TextAt(o, "kind"))
  {
    EvidenceIsKnown(TextAt(o, "kind"));
    hide RequiredNamed, Trim;
    assert !EvidenceWord("");
    hide EvidenceWord;
  }

  predicate AsksForRun(evidence: seq<Item>) {
    exists k :: 0 <= k < |evidence| && evidence[k].kind in {BehaviorTest, RuntimeGateTest, RegressionTest, UnitTest}
  }

  predicate AsksForPeople(evidence: seq<Item>) {
    forall k :: 0 <= k < |evidence| ==> evidence[k].kind in {ReviewerApproval, ManualValidation}
  }

  lemma AskingOneMore(front: seq<Item>, last: Item)
    ensures AsksForRun(front + [last]) <==> AsksForRun(front) || last.kind in {BehaviorTest, RuntimeGateTest, RegressionTest, UnitTest}
    ensures AsksForPeople(front + [last]) <==> AsksForPeople(front) && last.kind in {ReviewerApproval, ManualValidation}
  {
    var all := front + [last];
    assert all[|front|] == last && forall k :: 0 <= k < |front| ==> all[k] == front[k];
  }

  /** What a list of evidence items asks for, in the words of its well-formed items. */
  predicate WordsAskForRun(items: seq<Json>) {
    exists i :: 0 <= i < |items| && IsItem(items[i]) && RunWord(TextAt(items[i], "kind"))
  }

  predicate WordsAskForPeople(items: seq<Json>) {
    forall i :: 0 <= i < |items| && IsItem(items[i]) ==> PeopleWord(TextAt(items[i], "kind"))
  }

  lemma {:induction false} ItemsAreRead(items: seq<Json>)
    ensures ReadItems(items).0 != [] <==> exists i :: 0 <= i < |items| && IsItem(items[i])
    ensures ReadItems(items).1 == [] <==> forall i :: 0 <= i < |items| ==> IsItem(items[i])
    ensures AsksForRun(ReadItems(items).0) <==> WordsAskForRun(items)
    ensures AsksForPeople(ReadItems(items).0) <==> WordsAskForPeople(items)
  {
    hide ReadItem, IsItem, TextAt, RunWord, PeopleWord, RequiredNamed;
    if items == [] {
    } else {
      var n, last := |items| - 1, items[|items| - 1];
      ItemsAreRead(items[..n]);
      ItemIsRead(last);
      var front := ReadItems(items[..n]).0;
      if IsItem(last) {
        EvidenceGroups(TextAt(last, "kind"));
        AskingOneMore(front, ReadItem(last).value.value);
      } else {
        assert front + [] == front;
      }
      hide AsksForRun, AsksForPeople;
    }
  }

  // ---------- One row ----------

  /** What a row read from an object has, in the object's own words. */
  predicate RowSays(j: Json, e: Entry) {
    && e.criterion == TextAt(j, "criterion")
    && (e.kind == RuntimeBehavior <==> TextAt(j, "criterionKind") == "runtime-behavior")
    && (e.kind == Documentation <==> TextAt(j, "criterionKind") == "documentation")
    && (e.kind == Configuration <==> TextAt(j, "criterionKind") == "configuration")
    && |e.levels| == |TextsAt(j, "enforcementLevel")|
    && (forall i :: 0 <= i < |e.levels| ==> (e.levels[i] == PromptOnly <==> TextsAt(j, "enforcementLevel")[i] == "prompt-only"))
    && (AsksForRun(e.evidence) <==> WordsAskForRun(ItemsAt(j, "requiredEvidence")))
    && (AsksForPeople(e.evidence) <==> WordsAskForPeople(ItemsAt(j, "requiredEvidence")))
    && (e.caveat.Some? <==> TextAt(j, "promptOnlyCaveat") != "")
  }

  lemma RowIsRead(j: Json)
    ensures ReadEntry(j).value.Some? <==> IsRow(j)
    ensures IsRow(j) ==> RowSays(j, ReadEntry(j).value.value)
    ensures ReadEntry(j).issues == [] <==> IsRow(j) && forall i :: 0 <= i < |ItemsAt(j, "requiredEvidence")| ==> IsItem(ItemsAt(j, "requiredEvidence")[i])
  {
    KindWords(TextAt(j, "criterionKind"));
    LevelsAreRead(TextsAt(j, "enforcementLevel"));
    RolesAreRead(TextsAt(j, "reviewerRoles"), Behavior);
    ItemsAreRead(ItemsAt(j, "requiredEvidence"));
    NoWordIsEmpty();
    hide KindNamed, ReadLevels, ReadRoles, ReadItems, IsItem, KindWord, LevelWord, RoleWord, AsksForRun, AsksForPeople, WordsAskForRun, WordsAskForPeople,
      Text, Texts;
  }

  lemma NoWordIsEmpty()
    ensures !KindWord("")
  {
  }

  /** The roles a row asks for, by their words. */
  lemma RolesOfRow(j: Json, r: Role)
    requires IsRow(j)
    ensures ReadEntry(j).value.Some? && (r in ReadEntry(j).value.value.roles <==> WordOf(r) in TextsAt(j, "reviewerRoles"))
  {
    RowIsRead(j);
    RolesAreRead(TextsAt(j, "reviewerRoles"), r);
    hide KindNamed, ReadLevels, ReadRoles, ReadItems, IsRow, RowSays, Text, Texts, WordOf;
  }

  // ---------- The lock, on the file ----------

  /** Every item of the row's evidence is well formed. */
  predicate IsWhole(j: Json) {
    IsRow(j) && forall i :: 0 <= i < |ItemsAt(j, "requiredEvidence")| ==> IsItem(ItemsAt(j, "requiredEvidence")[i])
  }

  /** A row that says `prompt-only` explains it, and a runtime behaviour has something besides. */
  predicate KeepsPromptRules(j: Json) {
    var levels := TextsAt(j, "enforcementLevel");
    && ((exists i :: 0 <= i < |levels| && levels[i] == "prompt-only") ==> TextAt(j, "promptOnlyCaveat") != "")
    && (TextAt(j, "criterionKind") == "runtime-behavior" ==> exists i :: 0 <= i < |levels| && levels[i] != "prompt-only")
  }

  /** Every criterion has one row and every row a criterion. */
  predicate CoversInWords(criteria: seq<string>, items: seq<Json>) {
    && items != []
    && (forall i :: 0 <= i < |items| ==> TextAt(items[i], "criterion") in criteria)
    && (forall i, j :: 0 <= i < j < |items| ==> TextAt(items[i], "criterion") != TextAt(items[j], "criterion"))
    && (forall k :: 0 <= k < |criteria| ==> exists i :: 0 <= i < |items| && TextAt(items[i], "criterion") == criteria[k])
  }

  /** The rows as they stand in the file: whole, one for each criterion and none besides, and within the prompt-only rules. */
  predicate RowsLock(criteria: seq<string>, rows: seq<Json>) {
    CoversInWords(criteria, rows) && forall i :: 0 <= i < |rows| ==> IsWhole(rows[i]) && KeepsPromptRules(rows[i])
  }

  lemma {:induction false} CleanRowsAreRead(items: seq<Json>)
    ensures ReadEntries(items).1 == [] <==> forall i :: 0 <= i < |items| ==> IsWhole(items[i])
    ensures ReadEntries(items).1 == [] ==> |ReadEntries(items).0| == |items|
    ensures ReadEntries(items).1 == [] ==> forall i :: 0 <= i < |items| ==> ReadEntry(items[i]).value == Some(ReadEntries(items).0[i])
  {
    hide ReadEntry, IsWhole;
    if items == [] {
    } else {
      CleanRowsAreRead(items[..|items| - 1]);
      WholeIsRead(items[|items| - 1]);
    }
  }

  lemma WholeIsRead(j: Json)
    ensures ReadEntry(j).issues == [] <==> IsWhole(j)
    ensures IsWhole(j) ==> ReadEntry(j).value.Some?
  {
    RowIsRead(j);
    hide ReadEntry, IsRow, IsItem, ItemsAt, RowSays;
  }

  lemma PromptRulesAreSaid(j: Json, e: Entry)
    requires IsWhole(j) && ReadEntry(j).value == Some(e)
    ensures CaveatOk(e) && EnforcedBeyondPrompt(e) <==> KeepsPromptRules(j)
    ensures e.criterion == TextAt(j, "criterion")
  {
    RowIsRead(j);
    hide ReadEntry, IsRow, IsItem, ItemsAt, TextAt, TextsAt, AsksForRun, AsksForPeople, WordsAskForRun, WordsAskForPeople;
    var levels := TextsAt(j, "enforcementLevel");
    assert PromptOnly in e.levels <==> exists i :: 0 <= i < |levels| && levels[i] == "prompt-only";
    assert (exists i :: 0 <= i < |e.levels| && e.levels[i] != PromptOnly) <==> exists i :: 0 <= i < |levels| && levels[i] != "prompt-only";
    RowHasLevels(j);
  }

  lemma RowHasLevels(j: Json)
    requires IsWhole(j)
    ensures TextsAt(j, "enforcementLevel") != []
  {
    hide TextAt, TextsAt, ItemsAt, IsItem;
  }

  /** What a ready plan needs, in terms of what stands under the matrix key of its file. */
  lemma LockedIffRowsLock(criteria: seq<string>, matrix: Option<Json>)
    ensures Locked(criteria, ReadMatrix(matrix).0) && ReadMatrix(matrix).1 == []
            <==> matrix.Some? && matrix.value.Arr? && RowsLock(criteria, matrix.value.items)
  {
    if matrix.Some? && matrix.value.Arr? {
      var items := matrix.value.items;
      CleanRowsAreRead(items);
      hide ReadEntries, RowsLock, IsWhole;
      if ReadEntries(items).1 == [] {
        RowsLockTogether(criteria, items, ReadEntries(items).0);
      } else {
        hide Locked;
        DamagedRowsDoNotLock(criteria, items);
      }
    } else {
      hide PromptRules, StructureOk;
    }
  }

  lemma DamagedRowsDoNotLock(criteria: seq<string>, items: seq<Json>)
    requires !forall i :: 0 <= i < |items| ==> IsWhole(items[i])
    ensures !RowsLock(criteria, items)
  {
    hide IsWhole, KeepsPromptRules, TextAt;
  }

  lemma RowsLockTogether(criteria: seq<string>, items: seq<Json>, rows: seq<Entry>)
    requires |rows| == |items| && forall i :: 0 <= i < |items| ==> IsWhole(items[i]) && ReadEntry(items[i]).value == Some(rows[i])
    ensures Locked(criteria, rows) <==> RowsLock(criteria, items)
  {
    forall i | 0 <= i < |rows|
      ensures CaveatOk(rows[i]) && EnforcedBeyondPrompt(rows[i]) <==> KeepsPromptRules(items[i])
      ensures rows[i].criterion == TextAt(items[i], "criterion") && StructureOk(rows[i])
    {
      PromptRulesAreSaid(items[i], rows[i]);
      ReadRowsAreStructured(items[i], rows[i]);
    }
    hide IsWhole, ReadEntry, CaveatOk, EnforcedBeyondPrompt, KeepsPromptRules, StructureOk, TextAt;
    CoverageIsTheSame(criteria, items, rows);
    hide CoversExactly;
  }

  lemma CoverageIsTheSame(criteria: seq<string>, items: seq<Json>, rows: seq<Entry>)
    requires |rows| == |items| && forall i :: 0 <= i < |items| ==> rows[i].criterion == TextAt(items[i], "criterion")
    ensures CoversExactly(criteria, rows) <==> CoversInWords(criteria, items)
  {
    hide TextAt;
    forall k | 0 <= k < |criteria|
      ensures Names(rows, criteria[k]) <==> exists i :: 0 <= i < |items| && TextAt(items[i], "criterion") == criteria[k]
    {
    }
    hide Names;
  }

  lemma ReadRowsAreStructured(j: Json, e: Entry)
    requires ReadEntry(j).value == Some(e)
    ensures StructureOk(e)
  {
    ReadEntryIsGood(j);
    GoodRowIsStructured(e);
    hide ReadEntry, StructureOk, GoodEntry;
  }

  /** Every reachable ready plan's file says so in its own words. */
  lemma ReadyFilesLock(steps: seq<Step>, id: string)
    requires id in Run(map[], steps) && Run(map[], steps)[id].Stored? && Run(map[], steps)[id].fields.status == Ready
    ensures var file := Run(map[], steps)[id];
            file.matrix.Some? && file.matrix.value.Arr? && RowsLock(file.fields.criteria, file.matrix.value.items)
  {
    StoreIsLocked(steps, id);
    LockedIffRowsLock(Run(map[], steps)[id].fields.criteria, Run(map[], steps)[id].matrix);
    hide Run, Locked, ReadMatrix, RowsLock;
  }
}
