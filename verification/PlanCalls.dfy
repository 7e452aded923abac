/** What the accepted calls of the plan store write, field by field, as reading the file gives it back. */
module PlanCalls {
  import opened Js
  import opened Json
  import opened EvidenceMatrix
  import opened MatrixRoundTrip
  import opened MatrixRules
  import opened PlanStore
  import opened PlanLock

  /** `after` differs from `before` in one plan, which reads back without complaints. */
  ghost predicate Rewrites(before: map<string, File>, after: map<string, File>, id: string, plan: Plan) {
    && after.Keys == before.Keys + {id}
    && (forall other :: other in before && other != id ==> after[other] == before[other])
    && plan.readIssues == [] && ReadPlan(after[id]) == Some(plan)
  }

  /** Whatever is accepted is written, and reading gives it back; what is rejected leaves the store as it was. */
  lemma CallsRewriteOnePlan(files: map<string, File>, id: string, call: Call)
    ensures var r := Attempt(files, id, call);
            if r.Ok? then Rewrites(files, Apply(files, id, call), id, r.value.(readIssues := [])) else Apply(files, id, call) == files
  {
    if Attempt(files, id, call).Ok? {
      AcceptedPlansAreLocked(files, id, call);
      PlanReadsBack(Attempt(files, id, call).value);
    }
    hide Attempt, ReadPlan, WritePlan, GoodRows, PassesLock;
  }

  /** A list of texts is stored trimmed, without the blank ones. */
  lemma CleanListHolds(texts: seq<string>, t: string)
    ensures t in CleanList(texts) <==> t != "" && exists i :: 0 <= i < |texts| && Trim(texts[i]) == t
  {
    TextsAreTheStrings(StrArray(texts).items, t);
    assert forall i :: 0 <= i < |texts| ==> StrArray(texts).items[i] == Str(texts[i]);
    hide TextsOf, Trim;
  }

  // ---------- Phases ----------

  function PhaseNamed(f: Fields, phase: PhaseId): Phase {
    match phase
    case PhaseA => f.phaseA
    case PhaseB => f.phaseB
  }

  function OtherPhase(phase: PhaseId): PhaseId {
    match phase
    case PhaseA => PhaseB
    case PhaseB => PhaseA
  }

  /** A phase update gives the named phase the asked status and its note, if there is one, and changes nothing else of the plan. */
  lemma PhaseUpdateIs(files: map<string, File>, id: string, phase: PhaseId, status: PhaseStatus, note: string)
    requires id in files && files[id].Stored?
    ensures var call := UpdatePhase(phase, status, note);
            var (r, f) := (Attempt(files, id, call), files[id].fields);
            && (r.Ok? <==> f.status == Ready ==> Locked(f.criteria, ReadMatrix(files[id].matrix).0) && ReadMatrix(files[id].matrix).1 == [])
            && (r.Ok? ==>
                  var g := r.value.fields;
                  && Rewrites(files, Apply(files, id, call), id, r.value.(readIssues := []))
                  && PhaseNamed(g, phase).status == status
                  && PhaseNamed(g, phase).notes == PhaseNamed(f, phase).notes + (if Blank(note) then [] else [Trim(note)])
                  && PhaseNamed(g, OtherPhase(phase)) == PhaseNamed(f, OtherPhase(phase))
                  && g.status == f.status && g.texts == f.texts && g.criteria == f.criteria && g.openQuestions == f.openQuestions
                  && r.value.matrix == ReadMatrix(files[id].matrix).0)
  {
    CallsRewriteOnePlan(files, id, UpdatePhase(phase, status, note));
    hide Rewrites, Apply, ReadMatrix, Locked, Trim, Blank;
    var current := PhaseNamed(files[id].fields, phase);
    assert current.notes + [] == current.notes;
  }

  // ---------- Updates ----------

  predicate Asked(given: Option<string>, before: string, after: string) {
    match given
    case None => after == before
    case Some(text) => after == Trim(text)
  }

  predicate AskedList(given: Option<seq<string>>, before: seq<string>, after: seq<string>) {
    match given
    case None => after == before
    case Some(texts) => after == CleanList(texts)
  }

  /** An update writes each part that is given, trimmed, and keeps each part that is not; phases are never touched. */
  lemma UpdateIs(files: map<string, File>, id: string, patch: Patch)
    requires id in files && files[id].Stored? && Attempt(files, id, Update(patch)).Ok?
    ensures var (r, f) := (Attempt(files, id, Update(patch)).value, files[id].fields);
            var g := r.fields;
            && Rewrites(files, Apply(files, id, Update(patch)), id, r.(readIssues := []))
            && g.phaseA == f.phaseA && g.phaseB == f.phaseB
            && g.status == (if patch.status.Some? then patch.status.value else f.status)
            && Asked(patch.business, f.texts.business, g.texts.business) && Asked(patch.technical, f.texts.technical, g.texts.technical)
            && Asked(patch.parallel, f.texts.parallel, g.texts.parallel) && Asked(patch.contract, f.texts.contract, g.texts.contract)
            && AskedList(patch.criteria, f.criteria, g.criteria) && AskedList(patch.openQuestions, f.openQuestions, g.openQuestions)
            && r.matrix == ReadMatrix(if patch.matrix.Some? then patch.matrix.value else files[id].matrix).0
  {
    CallsRewriteOnePlan(files, id, Update(patch));
    hide Rewrites, Apply, ReadMatrix, Locked, Trim, CleanList, SomeTextEmpty;
  }

  /** A plan a call may leave: texts and criteria are there, and a ready one is locked on rows that all read. */
  predicate Acceptable(status: Status, texts: seq<string>, criteria: seq<string>, rows: seq<Entry>, damaged: bool) {
    && "" !in texts && criteria != []
    && (status == Ready ==> Locked(criteria, rows) && !damaged)
  }

  function TextList(t: PlanTexts): seq<string> {
    [t.business, t.technical, t.parallel, t.contract]
  }

  /** When an update is accepted, on the plan it would leave: a replacement matrix must read without complaints even for a draft. */
  lemma UpdateIsAcceptedIff(files: map<string, File>, id: string, patch: Patch, next: Fields)
    requires id in files && files[id].Stored?
    requires var f := files[id].fields;
             && next.status == (if patch.status.Some? then patch.status.value else f.status)
             && Asked(patch.business, f.texts.business, next.texts.business) && Asked(patch.technical, f.texts.technical, next.texts.technical)
             && Asked(patch.parallel, f.texts.parallel, next.texts.parallel) && Asked(patch.contract, f.texts.contract, next.texts.contract)
             && AskedList(patch.criteria, f.criteria, next.criteria)
    ensures var (rows, issues) := ReadMatrix(if patch.matrix.Some? then patch.matrix.value else files[id].matrix);
            Attempt(files, id, Update(patch)).Ok?
            <==> Acceptable(next.status, TextList(next.texts), next.criteria, rows, issues != []) && (patch.matrix.Some? ==> issues == [])
  {
    hide ReadMatrix, Locked, Trim, CleanList;
  }

  // ---------- Creation ----------

  predicate IsLowerOrDigit(c: char) {
    'a' <= c <= 'z' || '0' <= c <= '9'
  }

  /** A plan id: up to 40 lower-case letters, digits, hyphens and underscores, a letter or digit at either end. */
  predicate IsPlanId(id: string) {
    && id != "" && |id| <= 40 && IsLowerOrDigit(id[0]) && IsLowerOrDigit(id[|id| - 1])
    && forall i :: 0 <= i < |id| ==> IsLowerOrDigit(id[i]) || id[i] == '-' || id[i] == '_'
  }

  lemma PlanIdsAreSafe(id: string)
    ensures SafeId(id) <==> IsPlanId(id)
  {
  }

  /** A new plan is as asked, trimmed, with both phases not started. */
  lemma CreateIs(files: map<string, File>, id: string, status: Status, texts: PlanTexts, criteria: seq<string>, matrix: Option<Json>, questions: seq<string>)
    ensures var r := Attempt(files, id, Create(status, texts, criteria, matrix, questions));
            && (r.Ok? <==>
                  && IsPlanId(id) && !Blank(texts.business) && !Blank(texts.technical) && !Blank(texts.parallel) && !Blank(texts.contract)
                  && CleanList(criteria) != [] && ReadMatrix(matrix).1 == []
                  && (status == Ready ==> Locked(CleanList(criteria), ReadMatrix(matrix).0)))
            && (r.Ok? ==>
                  var f := r.value.fields;
                  && Rewrites(files, Apply(files, id, Create(status, texts, criteria, matrix, questions)), id, r.value)
                  && f.status == status && f.criteria == CleanList(criteria) && f.openQuestions == CleanList(questions)
                  && f.texts == PlanTexts(Trim(texts.business), Trim(texts.technical), Trim(texts.parallel), Trim(texts.contract))
                  && f.phaseA == Phase(NotStarted, []) && f.phaseB == Phase(NotStarted, [])
                  && r.value.matrix == ReadMatrix(matrix).0)
  {
    CallsRewriteOnePlan(files, id, Create(status, texts, criteria, matrix, questions));
    PlanIdsAreSafe(id);
    hide IsPlanId, Rewrites, Apply, ReadMatrix, Locked, Trim, CleanList, SafeId;
  }

  // ---------- Phases over runs ----------

  /** The status the last accepted call for a phase gave it: a phase update, or the creation that starts the plan over. */
  function LastStatus(files: map<string, File>, steps: seq<Step>, id: string, phase: PhaseId, start: PhaseStatus): PhaseStatus {
    if steps == [] then start
    else
      var front, last := steps[..|steps| - 1], steps[|steps| - 1];
      if last.id != id || Attempt(Run(files, front), id, last.call).Err? then LastStatus(files, front, id, phase, start)
      else
        match last.call
        case Create(_, _, _, _, _) => NotStarted
        case Update(_) => LastStatus(files, front, id, phase, start)
        case UpdatePhase(p, status, _) => if p == phase then status else LastStatus(files, front, id, phase, start)
  }

  lemma StepKeepsStatus(files: map<string, File>, id: string, step: Step, phase: PhaseId)
    requires id in files && files[id].Stored?
    ensures var after := Apply(files, step.id, step.call);
            && id in after && after[id].Stored?
            && PhaseNamed(after[id].fields, phase).status
               == if step.id != id || Attempt(files, id, step.call).Err? then PhaseNamed(files[id].fields, phase).status
                  else match step.call
                       case Create(_, _, _, _, _) => NotStarted
                       case Update(_) => PhaseNamed(files[id].fields, phase).status
                       case UpdatePhase(p, status, _) => if p == phase then status else PhaseNamed(files[id].fields, phase).status
  {
    hide ReadMatrix, Locked, Trim, CleanList, SafeId, Blank, WriteMatrix, SomeTextEmpty;
    if step.id == id && Attempt(files, id, step.call).Ok? {
      match step.call
      case Create(status, texts, criteria, matrix, questions) =>
      case Update(patch) =>
      case UpdatePhase(p, status, note) =>
    }
  }

  /** After any calls, on any plans, a phase has the status its last accepted call gave it. */
  lemma {:induction false} StatusIsTheLast(files: map<string, File>, steps: seq<Step>, id: string, phase: PhaseId)
    requires id in files && files[id].Stored?
    ensures var after := Run(files, steps);
            id in after && after[id].Stored?
            && PhaseNamed(after[id].fields, phase).status == LastStatus(files, steps, id, phase, PhaseNamed(files[id].fields, phase).status)
  {
    hide Attempt, Apply, PhaseNamed;
    if steps != [] {
      StatusIsTheLast(files, steps[..|steps| - 1], id, phase);
      StepKeepsStatus(Run(files, steps[..|steps| - 1]), id, steps[|steps| - 1], phase);
    }
  }

  /**
   * The gate over a run: a coder is let into the second phase only on a plan whose first phase was last set to approved, and whose second
   * was not; a reviewer is let into a phase only when it was last set to completed.
   */
  lemma OpenGateFollowedItsPhases(files: map<string, File>, steps: seq<Step>, id: string, phase: PhaseId, agent: Agent)
    requires id in files && files[id].Stored? && id in Run(files, steps)
    requires GateRejections(ReadPlan(Run(files, steps)[id]), phase, agent) == {}
    ensures var f := files[id].fields;
            && (phase == PhaseB ==> LastStatus(files, steps, id, PhaseA, f.phaseA.status) == ReviewApproved)
            && (agent == Reviewer ==> LastStatus(files, steps, id, phase, PhaseNamed(f, phase).status) == CoderCompleted)
            && (agent == Coder ==> LastStatus(files, steps, id, phase, PhaseNamed(f, phase).status) != ReviewApproved)
  {
    StatusIsTheLast(files, steps, id, PhaseA);
    StatusIsTheLast(files, steps, id, phase);
    hide Run, LastStatus, ReadMatrix, Locked;
    var plan := ReadPlan(Run(files, steps)[id]).value;
    GateIff(plan, phase, agent);
    hide GateRejections;
  }
}
