/** Architecture plans on disk: create, update and phase update under the ready-plan lock, and the phase gate. */
module PlanStore {
  import opened Js
  import opened Json
  import opened EvidenceMatrix
  import opened MatrixRoundTrip
  import opened MatrixRules

  datatype Status = Ready | Draft

  datatype PhaseStatus = NotStarted | CoderCompleted | ReviewApproved | ChangesRequested

  datatype Phase = Phase(status: PhaseStatus, notes: seq<string>)

  datatype PlanTexts = PlanTexts(business: string, technical: string, parallel: string, contract: string)

  datatype Fields = Fields(
    status: Status, texts: PlanTexts, criteria: seq<string>, openQuestions: seq<string>, phaseA: Phase, phaseB: Phase)

  /** A plan in memory; the complaints of reading its matrix ride along and are never written. */
  datatype Plan = Plan(fields: Fields, matrix: seq<Entry>, readIssues: seq<IssueCode>)

  /** A plan file: one that cannot be read as a plan, or the plan's fields with whatever stands under the matrix key. */
  datatype File = Broken | Stored(fields: Fields, matrix: Option<Json>)

  datatype PlanError = BadId | EmptyText | NoCriteria | BadMatrix | NotLocked | NotFound

  datatype Patch = Patch(
    status: Option<Status>, business: Option<string>, technical: Option<string>, parallel: Option<string>, contract: Option<string>,
    criteria: Option<seq<string>>, openQuestions: Option<seq<string>>, matrix: Option<Option<Json>>)

  datatype PhaseId = PhaseA | PhaseB

  predicate IsIdChar(c: char) {
    'a' <= c <= 'z' || '0' <= c <= '9'
  }

  predicate SafeId(id: string) {
    1 <= |id| <= 40 && IsIdChar(id[0]) && IsIdChar(id[|id| - 1])
    && forall i :: 0 <= i < |id| ==> IsIdChar(id[i]) || id[i] == '_' || id[i] == '-'
  }

  function CleanList(texts: seq<string>): seq<string> {
    TextsOf(StrArray(texts).items)
  }

  function TrimTexts(t: PlanTexts): PlanTexts {
    PlanTexts(Trim(t.business), Trim(t.technical), Trim(t.parallel), Trim(t.contract))
  }

  predicate SomeTextEmpty(t: PlanTexts) {
    t.business == "" || t.technical == "" || t.parallel == "" || t.contract == ""
  }

  // ---------- Reading and writing ----------

  function ReadPlan(file: File): Option<Plan> {
    match file
    case Broken => None
    case Stored(fields, matrix) => Some(Plan(fields, ReadMatrix(matrix).0, ReadMatrix(matrix).1))
  }

  function WritePlan(plan: Plan): File {
    Stored(plan.fields, if plan.matrix == [] then None else Some(WriteMatrix(plan.matrix)))
  }

  /** The ready-plan lock. */
  predicate PassesLock(plan: Plan) {
    plan.fields.status.Ready? ==> Locked(plan.fields.criteria, plan.matrix) && plan.readIssues == []
  }

  // ---------- The operations ----------

  function CreateOf(id: string, status: Status, texts: PlanTexts, criteria: seq<string>, matrix: Option<Json>, questions: seq<string>): Result<Plan, PlanError> {
    var t, c := TrimTexts(texts), CleanList(criteria);
    var (rows, issues) := ReadMatrix(matrix);
    var plan := Plan(Fields(status, t, c, CleanList(questions), Phase(NotStarted, []), Phase(NotStarted, [])), rows, []);
    if !SafeId(id) then Err(BadId)
    else if SomeTextEmpty(t) then Err(EmptyText)
    else if c == [] then Err(NoCriteria)
    else if issues != [] then Err(BadMatrix)
    else if !PassesLock(plan) then Err(NotLocked)
    else Ok(plan)
  }

  function Patched(t: Option<string>, kept: string): string {
    if t.Some? then Trim(t.value) else kept
  }

  function UpdateOf(file: File, patch: Patch): Result<Plan, PlanError> {
    var read := ReadPlan(file);
    if read.None? then Err(NotFound)
    else
      var plan := read.value;
      var f := plan.fields;
      var t := PlanTexts(Patched(patch.business, f.texts.business), Patched(patch.technical, f.texts.technical),
                         Patched(patch.parallel, f.texts.parallel), Patched(patch.contract, f.texts.contract));
      var c := if patch.criteria.Some? then CleanList(patch.criteria.value) else f.criteria;
      var q := if patch.openQuestions.Some? then CleanList(patch.openQuestions.value) else f.openQuestions;
      var status := if patch.status.Some? then patch.status.value else f.status;
      var fields := Fields(status, t, c, q, f.phaseA, f.phaseB);
      var next :=
        if patch.matrix.Some? then Plan(fields, ReadMatrix(patch.matrix.value).0, []) else Plan(fields, plan.matrix, plan.readIssues);
      if c == [] then Err(NoCriteria)
      else if SomeTextEmpty(t) then Err(EmptyText)
      else if patch.matrix.Some? && ReadMatrix(patch.matrix.value).1 != [] then Err(BadMatrix)
      else if !PassesLock(next) then Err(NotLocked)
      else Ok(next)
  }

  function PhaseOf(file: File, phase: PhaseId, status: PhaseStatus, note: string): Result<Plan, PlanError> {
    var read := ReadPlan(file);
    if read.None? then Err(NotFound)
    else
      var f := read.value.fields;
      var current := if phase.PhaseA? then f.phaseA else f.phaseB;
      var p := Phase(status, if Blank(note) then current.notes else current.notes + [Trim(note)]);
      var next := read.value.(fields := if phase.PhaseA? then f.(phaseA := p) else f.(phaseB := p));
      if PassesLock(next) then Ok(next) else Err(NotLocked)
  }

  // ---------- The gate ----------

  datatype Agent = NoAgent | Coder | Reviewer

  datatype Rejection = PlanMissing | PlanNotReady | OpenQuestions | PhaseANotApproved | InvalidPhaseStatus | MatrixRejected

  function GateRejections(plan: Option<Plan>, phase: PhaseId, agent: Agent): set<Rejection> {
    if plan.None? then {PlanMissing}
    else
      var f := plan.value.fields;
      var status := (if phase.PhaseA? then f.phaseA else f.phaseB).status;
      (if f.status.Ready? then {} else {PlanNotReady})
      + (if f.openQuestions == [] then {} else {OpenQuestions})
      + (if phase.PhaseB? && !f.phaseA.status.ReviewApproved? then {PhaseANotApproved} else {})
      + (if (agent.Reviewer? && !status.CoderCompleted?) || (agent.Coder? && status.ReviewApproved?) then {InvalidPhaseStatus} else {})
      + (if f.status.Ready? && !(Locked(f.criteria, plan.value.matrix) && plan.value.readIssues == []) then {MatrixRejected} else {})
  }

  // ---------- The store ----------

  class PlanFiles {
    var files: map<string, File>

    constructor ()
      ensures files == map[]
    {
      files := map[];
    }

    /** The lock, by running the validation on a ready plan. */
    method AssertReadyMatrix(plan: Plan) returns (ok: bool)
      ensures ok == PassesLock(plan)
    {
      if !plan.fields.status.Ready? {
        return true;
      }
      if plan.matrix == [] {
        return false;
      }
      var issues := ValidateMatrix(plan.fields.criteria, plan.matrix, true);
      if issues != [] {
        return false;
      }
      ok := plan.readIssues == [];
    }

    method Create(id: string, status: Status, texts: PlanTexts, criteria: seq<string>, matrix: Option<Json>, questions: seq<string>)
      returns (r: Result<Plan, PlanError>)
      modifies this
      ensures r == CreateOf(id, status, texts, criteria, matrix, questions)
      ensures files == if r.Ok? then old(files)[id := WritePlan(r.value)] else old(files)
    {
      if !SafeId(id) {
        return Err(BadId);
      }
      var t, c := TrimTexts(texts), CleanList(criteria);
      if SomeTextEmpty(t) {
        return Err(EmptyText);
      }
      if c == [] {
        return Err(NoCriteria);
      }
      var (rows, issues) := ReadMatrix(matrix);
      if issues != [] {
        return Err(BadMatrix);
      }
      var plan := Plan(Fields(status, t, c, CleanList(questions), Phase(NotStarted, []), Phase(NotStarted, [])), rows, []);
      var ok := AssertReadyMatrix(plan);
      if !ok {
        return Err(NotLocked);
      }
      files := files[id := WritePlan(plan)];
      r := Ok(plan);
    }

    method Update(id: string, patch: Patch) returns (r: Result<Plan, PlanError>)
      modifies this
      ensures r == if id in old(files) then UpdateOf(old(files)[id], patch) else Err(NotFound)
      ensures files == if r.Ok? then old(files)[id := WritePlan(r.value)] else old(files)
    {
      if id !in files || files[id].Broken? {
        return Err(NotFound);
      }
      var plan := ReadPlan(files[id]).value;
      var f := plan.fields;
      var t := PlanTexts(Patched(patch.business, f.texts.business), Patched(patch.technical, f.texts.technical),
                         Patched(patch.parallel, f.texts.parallel), Patched(patch.contract, f.texts.contract));
      var c := if patch.criteria.Some? then CleanList(patch.criteria.value) else f.criteria;
      var q := if patch.openQuestions.Some? then CleanList(patch.openQuestions.value) else f.openQuestions;
      var status := if patch.status.Some? then patch.status.value else f.status;
      if c == [] {
        return Err(NoCriteria);
      }
      if SomeTextEmpty(t) {
        return Err(EmptyText);
      }
      var next := Plan(Fields(status, t, c, q, f.phaseA, f.phaseB), plan.matrix, plan.readIssues);
      if patch.matrix.Some? {
        var (rows, issues) := ReadMatrix(patch.matrix.value);
        if issues != [] {
          return Err(BadMatrix);
        }
        next := next.(matrix := rows, readIssues := []);
      }
      var ok := AssertReadyMatrix(next);
      if !ok {
        return Err(NotLocked);
      }
      files := files[id := WritePlan(next)];
      r := Ok(next);
    }

    method UpdatePhase(id: string, phase: PhaseId, status: PhaseStatus, note: string) returns (r: Result<Plan, PlanError>)
      modifies this
      ensures r == if id in old(files) then PhaseOf(old(files)[id], phase, status, note) else Err(NotFound)
      ensures files == if r.Ok? then old(files)[id := WritePlan(r.value)] else old(files)
    {
      if id !in files || files[id].Broken? {
        return Err(NotFound);
      }
      var plan := ReadPlan(files[id]).value;
      var f := plan.fields;
      var current := if phase.PhaseA? then f.phaseA else f.phaseB;
      var notes := current.notes;
      if !Blank(note) {
        notes := notes + [Trim(note)];
      }
      var next := plan.(fields := if phase.PhaseA? then f.(phaseA := Phase(status, notes)) else f.(phaseB := Phase(status, notes)));
      var ok := AssertReadyMatrix(next);
      if !ok {
        return Err(NotLocked);
      }
      files := files[id := WritePlan(next)];
      r := Ok(next);
    }
  }
}
