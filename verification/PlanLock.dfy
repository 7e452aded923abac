/** What the ready-plan lock guarantees over whole runs of the plan store, and where it lets a damaged matrix through. */
module PlanLock {
  import opened Js
  import opened Json
  import opened EvidenceMatrix
  import opened MatrixRoundTrip
  import opened MatrixRules
  import opened PlanStore

  datatype Call =
    | Create(status: Status, texts: PlanTexts, criteria: seq<string>, matrix: Option<Json>, questions: seq<string>)
    | Update(patch: Patch)
    | UpdatePhase(phase: PhaseId, phaseStatus: PhaseStatus, note: string)

  function Attempt(files: map<string, File>, id: string, call: Call): Result<Plan, PlanError> {
    match call
    case Create(status, texts, criteria, matrix, questions) => CreateOf(id, status, texts, criteria, matrix, questions)
    case Update(patch) => if id in files then UpdateOf(files[id], patch) else Err(NotFound)
    case UpdatePhase(phase, status, note) => if id in files then PhaseOf(files[id], phase, status, note) else Err(NotFound)
  }

  /** A rejected call leaves the store as it was. */
  function Apply(files: map<string, File>, id: string, call: Call): map<string, File> {
    var r := Attempt(files, id, call);
    if r.Ok? then files[id := WritePlan(r.value)] else files
  }

  datatype Step = Step(id: string, call: Call)

  function Run(files: map<string, File>, steps: seq<Step>): map<string, File> {
    if steps == [] then files
    else Apply(Run(files, steps[..|steps| - 1]), steps[|steps| - 1].id, steps[|steps| - 1].call)
  }

  predicate GoodRows(matrix: seq<Entry>) {
    forall i :: 0 <= i < |matrix| ==> GoodEntry(matrix[i])
  }

  /** A file that reads back without a complaint, and whose plan is locked if it is ready. */
  predicate GoodFile(file: File) {
    file.Stored? && ReadMatrix(file.matrix).1 == []
    && (file.fields.status.Ready? ==> Locked(file.fields.criteria, ReadMatrix(file.matrix).0))
  }

  /** Writing a plan and reading it back returns the plan. */
  lemma PlanReadsBack(plan: Plan)
    requires GoodRows(plan.matrix)
    ensures ReadPlan(WritePlan(plan)) == Some(plan.(readIssues := []))
  {
    MatrixReadsBack(plan.matrix);
    hide GoodEntry, WriteMatrix, ReadEntries;
  }

  lemma UpdatesAreLocked(file: File, patch: Patch)
    requires UpdateOf(file, patch).Ok?
    ensures var plan := UpdateOf(file, patch).value; PassesLock(plan) && GoodRows(plan.matrix)
  {
    hide ReadMatrix, GoodEntry, Locked, CleanList, Trim, WriteMatrix;
    ReadMatrixIsGood(file.matrix);
    if patch.matrix.Some? {
      ReadMatrixIsGood(patch.matrix.value);
    }
  }

  lemma AcceptedPlansAreLocked(files: map<string, File>, id: string, call: Call)
    requires Attempt(files, id, call).Ok?
    ensures var plan := Attempt(files, id, call).value; PassesLock(plan) && GoodRows(plan.matrix)
  {
    hide ReadMatrix, GoodEntry, Locked, SafeId, CleanList, Trim, Blank, WriteMatrix;
    match call
    case Create(status, texts, criteria, matrix, questions) => ReadMatrixIsGood(matrix);
    case Update(patch) => UpdatesAreLocked(files[id], patch);
    case UpdatePhase(phase, status, note) => ReadMatrixIsGood(files[id].matrix);
  }

  /** Every accepted call, on any file however damaged, writes a file that is good again. */
  lemma AcceptedCallsWriteGoodFiles(files: map<string, File>, id: string, call: Call)
    requires Attempt(files, id, call).Ok?
    ensures GoodFile(Apply(files, id, call)[id])
  {
    AcceptedPlansAreLocked(files, id, call);
    PlanReadsBack(Attempt(files, id, call).value);
    hide Attempt, GoodRows, ReadMatrix, Locked, WriteMatrix;
  }

  /**
   * From an empty store, after any calls: every file reads back clean, and the matrix of every ready plan has
   * exactly one row for each acceptance criterion, no row besides, and no runtime behaviour enforced by a prompt alone.
   */
  lemma {:induction false} StoreIsLocked(steps: seq<Step>, id: string)
    requires id in Run(map[], steps)
    ensures GoodFile(Run(map[], steps)[id])
  {
    var before, last := Run(map[], steps[..|steps| - 1]), steps[|steps| - 1];
    if Attempt(before, last.id, last.call).Ok? {
      AcceptedCallsWriteGoodFiles(before, last.id, last.call);
    }
    if id in before {
      StoreIsLocked(steps[..|steps| - 1], id);
    }
    hide Attempt, GoodFile;
  }

  /** A ready plan of such a store is never rejected for its matrix. */
  lemma GateTrustsTheStore(steps: seq<Step>, id: string, phase: PhaseId, agent: Agent)
    requires id in Run(map[], steps)
    ensures MatrixRejected !in GateRejections(ReadPlan(Run(map[], steps)[id]), phase, agent)
  {
    StoreIsLocked(steps, id);
    hide Run, GoodFile, GateRejections, ReadPlan;
    GoodFilesPassTheMatrixCheck(Run(map[], steps)[id], phase, agent);
  }

  lemma GoodFilesPassTheMatrixCheck(file: File, phase: PhaseId, agent: Agent)
    requires GoodFile(file)
    ensures MatrixRejected !in GateRejections(ReadPlan(file), phase, agent)
  {
    hide Locked, ReadMatrix;
    var f := file.fields;
    assert !(f.status.Ready? && !(Locked(f.criteria, ReadMatrix(file.matrix).0) && ReadMatrix(file.matrix).1 == []));
  }

  /** The gate lets delegation through exactly when the plan is ready, locked, without questions, and its phases are in step. */
  lemma GateIff(plan: Plan, phase: PhaseId, agent: Agent)
    ensures GateRejections(Some(plan), phase, agent) == {}
            <==> (var f := plan.fields;
                  var status := (if phase.PhaseA? then f.phaseA else f.phaseB).status;
                  && f.status.Ready? && Locked(f.criteria, plan.matrix) && plan.readIssues == [] && f.openQuestions == []
                  && (phase.PhaseB? ==> f.phaseA.status.ReviewApproved?)
                  && (agent.Reviewer? ==> status.CoderCompleted?) && (agent.Coder? ==> !status.ReviewApproved?))
  {
    hide Locked;
    var r := GateRejections(Some(plan), phase, agent);
    assert r == {} <==> PlanNotReady !in r && OpenQuestions !in r && PhaseANotApproved !in r && InvalidPhaseStatus !in r && MatrixRejected !in r && PlanMissing !in r by {
      forall x | x in r
        ensures x == PlanNotReady || x == OpenQuestions || x == PhaseANotApproved || x == InvalidPhaseStatus || x == MatrixRejected
      {
      }
    }
  }

  // ---------- A damaged matrix ----------

  predicate Damaged(file: File) {
    file.Stored? && ReadMatrix(file.matrix).1 != []
  }

  predicate ReplacesMatrix(call: Call) {
    call.Create? || (call.Update? && call.patch.matrix.Some?)
  }

  /** While rows are damaged, a call that brings no replacement matrix is accepted only if it leaves the plan a draft. */
  lemma DamagedPlansStayDraft(files: map<string, File>, id: string, call: Call)
    requires id in files && Damaged(files[id]) && !ReplacesMatrix(call)
    ensures Attempt(files, id, call).Ok? ==> Attempt(files, id, call).value.fields.status.Draft?
    ensures forall phase, agent :: GateRejections(ReadPlan(files[id]), phase, agent) != {}
  {
    hide Locked, ReadMatrix, CleanList, Trim, Blank;
    forall phase, agent
      ensures GateRejections(ReadPlan(files[id]), phase, agent) != {}
    {
      DamageClosesTheGate(files[id], phase, agent);
    }
  }

  lemma DamageClosesTheGate(file: File, phase: PhaseId, agent: Agent)
    requires Damaged(file)
    ensures GateRejections(ReadPlan(file), phase, agent) != {}
  {
    hide Locked, ReadMatrix;
    var r := GateRejections(ReadPlan(file), phase, agent);
    assert MatrixRejected in r || PlanNotReady in r;
  }

  const TO_DRAFT := Patch(Some(Draft), None, None, None, None, None, None, None)
  const TO_READY := Patch(Some(Ready), None, None, None, None, None, None, None)

  /**
   * A ready plan with damaged rows is repaired without a replacement matrix: once rewritten as a draft the damaged rows are gone from the
   * file. With its criteria as they are it may then be made ready exactly when the rows that survived reading satisfy the lock.
   */
  lemma DraftingForgetsDamage(file: File)
    requires Damaged(file) && file.fields.criteria != [] && !SomeTextEmpty(file.fields.texts)
    ensures var drafted := UpdateOf(file, TO_DRAFT);
            && drafted.Ok?
            && !Damaged(WritePlan(drafted.value))
            && (UpdateOf(WritePlan(drafted.value), TO_READY).Ok? <==> Locked(file.fields.criteria, ReadMatrix(file.matrix).0))
  {
    var plan := ReadPlan(file).value;
    ReadMatrixIsGood(file.matrix);
    hide ReadMatrix, Locked, GoodEntry, WriteMatrix;
    var drafted := plan.(fields := plan.fields.(status := Draft));
    assert UpdateOf(file, TO_DRAFT) == Ok(drafted);
    PlanReadsBack(drafted);
    hide ReadPlan, WritePlan;
    ReadyAgain(WritePlan(drafted), drafted.(readIssues := []));
    DraftIsUndamaged(drafted);
  }

  lemma ReadyAgain(file: File, plan: Plan)
    requires ReadPlan(file) == Some(plan) && plan.readIssues == [] && plan.fields.criteria != [] && !SomeTextEmpty(plan.fields.texts)
    ensures UpdateOf(file, TO_READY).Ok? <==> Locked(plan.fields.criteria, plan.matrix)
  {
    hide Locked, ReadMatrix;
  }

  lemma DraftIsUndamaged(plan: Plan)
    requires GoodRows(plan.matrix)
    ensures !Damaged(WritePlan(plan))
  {
    PlanReadsBack(plan);
    hide ReadMatrix, WriteMatrix, GoodRows;
  }

  // ---------- Which damaged plans become ready without a replacement ----------

  function CriteriaOf(rows: seq<Entry>): seq<string> {
    seq(|rows|, i requires 0 <= i < |rows| => rows[i].criterion)
  }

  /** Rows that satisfy the lock for some criteria: their own. */
  predicate Lockable(rows: seq<Entry>) {
    rows != [] && PromptRules(rows) && forall i, j :: 0 <= i < j < |rows| ==> rows[i].criterion != rows[j].criterion
  }

  /** Whatever the criteria, only lockable rows can be locked for them. */
  lemma LockedIsLockable(criteria: seq<string>, rows: seq<Entry>)
    requires Locked(criteria, rows)
    ensures Lockable(rows)
  {
    hide PromptRules, Names, StructureOk;
  }

  lemma LockableIsLocked(rows: seq<Entry>)
    requires Lockable(rows) && GoodRows(rows)
    ensures Locked(CriteriaOf(rows), rows)
  {
    hide PromptRules;
    var criteria := CriteriaOf(rows);
    forall i | 0 <= i < |rows|
      ensures rows[i].criterion in criteria && Names(rows, criteria[i]) && StructureOk(rows[i])
    {
      assert criteria[i] == rows[i].criterion;
      GoodRowIsStructured(rows[i]);
    }
    hide StructureOk, GoodEntry, Names;
  }

  lemma GoodRowIsStructured(e: Entry)
    requires GoodEntry(e)
    ensures StructureOk(e)
  {
    hide Trim;
  }

  lemma GoodCriteriaAreClean(rows: seq<Entry>)
    requires GoodRows(rows)
    ensures CleanList(CriteriaOf(rows)) == CriteriaOf(rows)
  {
    hide TextsOf, StrArray, Clean;
    forall i | 0 <= i < |rows|
      ensures Clean(CriteriaOf(rows)[i])
    {
      assert GoodEntry(rows[i]);
    }
    CleanTextsReadBack(CriteriaOf(rows));
  }

  ghost predicate NoReplacement(steps: seq<Step>, id: string) {
    forall k :: 0 <= k < |steps| && steps[k].id == id ==> !ReplacesMatrix(steps[k].call)
  }

  /** The rows a file's plan has in memory. */
  function RowsOf(file: File): seq<Entry>
    requires file.Stored?
  {
    ReadMatrix(file.matrix).0
  }

  lemma KeptCallKeepsRows(files: map<string, File>, id: string, call: Call)
    requires id in files && files[id].Stored? && !ReplacesMatrix(call)
    ensures var after := Apply(files, id, call); id in after && after[id].Stored? && RowsOf(after[id]) == RowsOf(files[id])
  {
    if Attempt(files, id, call).Ok? {
      AcceptedPlansAreLocked(files, id, call);
      var plan := Attempt(files, id, call).value;
      KeptCallKeepsMatrix(files, id, call);
      PlanReadsBack(plan);
      hide Attempt, GoodRows, ReadMatrix, PassesLock;
    }
  }

  lemma KeptCallKeepsMatrix(files: map<string, File>, id: string, call: Call)
    requires id in files && files[id].Stored? && !ReplacesMatrix(call) && Attempt(files, id, call).Ok?
    ensures Attempt(files, id, call).value.matrix == RowsOf(files[id])
  {
    hide ReadMatrix, Locked, CleanList, Trim, Blank;
  }

  /** No calls but a replacement change which rows of a plan survive. */
  lemma {:induction false} RowsSurvive(files: map<string, File>, steps: seq<Step>, id: string)
    requires id in files && files[id].Stored? && NoReplacement(steps, id)
    ensures var after := Run(files, steps); id in after && after[id].Stored? && RowsOf(after[id]) == RowsOf(files[id])
  {
    if steps != [] {
      var front, last := steps[..|steps| - 1], steps[|steps| - 1];
      assert forall k :: 0 <= k < |front| ==> front[k] == steps[k];
      RowsSurvive(files, front, id);
      if last.id == id {
        KeptCallKeepsRows(Run(files, front), id, last.call);
      }
      hide Attempt, RowsOf, ReplacesMatrix;
    }
  }

  predicate IsReady(file: File) {
    GoodFile(file) && file.fields.status.Ready?
  }

  ghost predicate ReadyAfter(files: map<string, File>, steps: seq<Step>, id: string) {
    id in Run(files, steps) && IsReady(Run(files, steps)[id])
  }

  ghost predicate CanBeReady(files: map<string, File>, id: string) {
    exists steps :: NoReplacement(steps, id) && ReadyAfter(files, steps, id)
  }

  function Filled(text: string): Option<string> {
    if text == "" then Some("-") else None
  }

  /** Back to a draft, with the surviving rows' criteria, and a word in each text that is empty. */
  function Redraft(file: File): Patch
    requires file.Stored?
  {
    var t := file.fields.texts;
    Patch(Some(Draft), Filled(t.business), Filled(t.technical), Filled(t.parallel), Filled(t.contract), Some(CriteriaOf(RowsOf(file))), None, None)
  }

  lemma FilledIsNotEmpty(text: string)
    ensures Patched(Filled(text), text) != ""
  {
    assert Trim("-") == "-";
  }

  lemma RedraftIsAccepted(file: File)
    requires file.Stored? && RowsOf(file) != []
    ensures var r := UpdateOf(file, Redraft(file));
            && r.Ok? && r.value.fields.status.Draft? && r.value.matrix == RowsOf(file) && GoodRows(r.value.matrix)
            && r.value.fields.criteria == CriteriaOf(RowsOf(file)) && !SomeTextEmpty(r.value.fields.texts)
  {
    var t := file.fields.texts;
    ReadMatrixIsGood(file.matrix);
    GoodCriteriaAreClean(RowsOf(file));
    FilledIsNotEmpty(t.business);
    FilledIsNotEmpty(t.technical);
    FilledIsNotEmpty(t.parallel);
    FilledIsNotEmpty(t.contract);
    hide ReadMatrix, GoodEntry, Locked, CleanList, Patched, Filled;
  }

  /** Two updates without a matrix make a plan with lockable rows ready. */
  lemma LockableBecomesReady(files: map<string, File>, id: string)
    requires id in files && files[id].Stored? && Lockable(RowsOf(files[id]))
    ensures ReadyAfter(files, [Step(id, Update(Redraft(files[id]))), Step(id, Update(TO_READY))], id)
  {
    var file := files[id];
    RedraftIsAccepted(file);
    var drafted := UpdateOf(file, Redraft(file)).value;
    var middle := WritePlan(drafted);
    PlanReadsBack(drafted);
    LockableIsLocked(drafted.matrix);
    hide ReadMatrix, RowsOf, Lockable, GoodRows, Redraft, WritePlan, ReadPlan, Locked, SomeTextEmpty;
    ReadyAgain(middle, drafted.(readIssues := []));
    var first := files[id := middle];
    AcceptedCallsWriteGoodFiles(first, id, Update(TO_READY));
    TwoUpdates(files, id, Redraft(file), TO_READY);
    ReadyPatchIsReady(middle);
    hide UpdateOf, GoodFile;
    var last := Apply(first, id, Update(TO_READY));
    assert Apply(files, id, Update(Redraft(file))) == first && last == first[id := WritePlan(UpdateOf(middle, TO_READY).value)];
    assert IsReady(last[id]);
    hide Run, Apply, IsReady;
  }

  lemma ReadyPatchIsReady(file: File)
    ensures UpdateOf(file, TO_READY).Ok? ==> UpdateOf(file, TO_READY).value.fields.status.Ready?
    ensures UpdateOf(file, TO_READY).Ok? ==> WritePlan(UpdateOf(file, TO_READY).value).fields.status.Ready?
  {
    hide ReadMatrix, Locked, WriteMatrix, Trim;
  }

  lemma TwoUpdates(files: map<string, File>, id: string, a: Patch, b: Patch)
    ensures Run(files, [Step(id, Update(a)), Step(id, Update(b))]) == Apply(Apply(files, id, Update(a)), id, Update(b))
  {
    hide Apply;
    var first := [Step(id, Update(a))];
    assert [Step(id, Update(a)), Step(id, Update(b))][..1] == first && first[..0] == [];
    assert Run(files, first) == Apply(Run(files, []), id, Update(a));
  }

  /**
   * Which plans can be made ready without a replacement matrix, by any calls at all on any plans: exactly those whose surviving rows, damaged rows
   * left out, are some, name no criterion twice and keep the prompt-only rules.
   */
  lemma ReadyWithoutReplacementIff(files: map<string, File>, id: string)
    requires id in files && files[id].Stored?
    ensures CanBeReady(files, id) <==> Lockable(RowsOf(files[id]))
  {
    hide RowsOf, Lockable, CanBeReady;
    if CanBeReady(files, id) {
      ReadyRowsAreLockable(files, id);
    }
    if Lockable(RowsOf(files[id])) {
      LockableCanBeReady(files, id);
    }
  }

  lemma ReadyRowsAreLockable(files: map<string, File>, id: string)
    requires id in files && files[id].Stored? && CanBeReady(files, id)
    ensures Lockable(RowsOf(files[id]))
  {
    hide Run, ReadMatrix, NoReplacement, Lockable, Locked;
    var steps :| NoReplacement(steps, id) && ReadyAfter(files, steps, id);
    RowsSurvive(files, steps, id);
    var after := Run(files, steps)[id];
    LockedIsLockable(after.fields.criteria, RowsOf(after));
  }

  lemma LockableCanBeReady(files: map<string, File>, id: string)
    requires id in files && files[id].Stored? && Lockable(RowsOf(files[id]))
    ensures CanBeReady(files, id)
  {
    hide RowsOf, Lockable, ReadyAfter, Redraft;
    LockableBecomesReady(files, id);
    assert NoReplacement([Step(id, Update(Redraft(files[id]))), Step(id, Update(TO_READY))], id) by {
      RedraftBringsNoMatrix(files[id]);
    }
  }

  lemma RedraftBringsNoMatrix(file: File)
    requires file.Stored?
    ensures Redraft(file).matrix.None?
  {
  }

  /** Damage does occur beside lockable rows: one well-formed row that keeps the prompt-only rules, and anything that is no row behind it. */
  lemma DamagedButReady(files: map<string, File>, id: string, e: Entry)
    requires id in files && files[id].Stored? && files[id].matrix == Some(Arr([WriteEntry(e), Null]))
    requires GoodEntry(e) && CaveatOk(e) && EnforcedBeyondPrompt(e)
    ensures Damaged(files[id]) && RowsOf(files[id]) == [e] && CanBeReady(files, id)
  {
    hide WriteEntry, GoodEntry, CanBeReady, ReadEntries, CaveatOk, EnforcedBeyondPrompt;
    EntryReadsBack(e);
    OneRowSurvives(WriteEntry(e), e);
    ReadyWithoutReplacementIff(files, id);
  }

  lemma NullIsNoRow()
    ensures ReadEntry(Null) == Parsed(None, [MissingField])
  {
  }

  lemma OneRowSurvives(w: Json, e: Entry)
    requires ReadEntry(w) == Parsed(Some(e), [])
    ensures ReadEntries([w, Null]) == ([e], [MissingField])
  {
    hide ReadEntry;
    NullIsNoRow();
    var one, two := [w], [w, Null];
    assert two[..1] == one && one[..0] == [];
    assert ReadEntries(one[..0]) == ([], []);
    assert one[|one| - 1] == w && two[|two| - 1] == Null;
    assert ReadEntries(one).0 == [e] && ReadEntries(one).1 == [];
    assert ReadEntries(two).0 == [e] + [] == [e];
    assert ReadEntries(two).1 == [] + [MissingField] == [MissingField];
    assert ReadEntries(two) == ([e], [MissingField]);
    hide ReadEntries;
  }
}
