/**
 * The AFK ship supervisor: one function from a durable state and an event to the next state.
 * The state is whatever the file holds, so lanes and kinds may carry values the engine never writes.
 */
module ShipEngine {
  import opened Js
  import opened CodePaths

  datatype Lane = FullSprint | Hotfix | Debug | OtherLane(text: string)

  datatype HotfixKind = CodeChanging | TextOnly | OtherKind(text: string)

  datatype NextLane = ToHotfix | ToFullSprint | ReportOnly | OtherNext(text: string)

  datatype Stage =
    | Fresh | Diagnosing | Implementing | Reviewing | Fixing | Finalizing | DeliveryComplete | Blocked | OtherStage(text: string)

  datatype CheckOutcome = Passed | Failed | Skipped

  datatype Check = Check(command: string, outcome: CheckOutcome)

  datatype Verdict = NotRequired | Approved | ChangesRequested(broaderRisk: bool)

  datatype RemoteAction = Push | PullRequest | Deploy | Destructive | Credentialed

  datatype NextAction = Implement | Review | Fix | Finalize | Deliver | ReportIt | Halt

  datatype Stop =
    | ScopeExpansion | BudgetExhausted | ChecksFailed | FinalizationBlocked | NoSelectedLane | UnauthorizedRemote
    | DeliveryDone | ReportOnlyStop | GatesNotConfirmed | TextEvidenceMissing | ImplementationEvidenceMissing

  datatype Finalization = Finalization(summary: string, result: Option<string>, auditSummary: string, auditArtifact: string)

  /** The evidence a run has gathered. */
  datatype Work = Work(changedFiles: seq<string>, evidenceRefs: seq<string>, checks: seq<Check>)

  /** Where a run stands. */
  datatype Standing = Standing(stage: Stage, lastStop: Option<Stop>, nextAction: Option<NextAction>)

  /** What a debug run has found, recommended and been told to do. */
  datatype Findings = Findings(diagnosis: string, recommended: Option<NextLane>, selected: Option<NextLane>)

  datatype ShipState = ShipState(
    lane: Lane, hotfixKind: Option<HotfixKind>, gatesConfirmed: bool, reviewerRequired: bool,
    attempts: int, retryBudget: int, permissions: set<RemoteAction>,
    at: Standing, work: Work, verdict: Option<Verdict>, broaderRiskNoted: bool,
    finalization: Option<Finalization>, debug: Findings)

  datatype Event =
    | Diagnose(text: string, recommended: NextLane, affected: seq<string>)
    | SelectNextLane(lane: NextLane, kind: Option<HotfixKind>)
    | SelectReportOnly
    | ImplementStarted
    | CoderCompleted(files: seq<string>, refs: seq<string>, checks: seq<Check>)
    | ReviewerChangesRequested(broaderRisk: bool)
    | ReviewerApproved
    | EvidenceCollected(refs: seq<string>, checks: seq<Check>)
    | FocusedFixCompleted(files: seq<string>, refs: seq<string>, checks: seq<Check>)
    | FinalizationRecorded(f: Finalization)
    | RemoteActionRequested(action: RemoteAction)
    | MarkBlocked

  // ---------- Helpers of the handlers ----------

  function StopAt(s: ShipState, stop: Stop, next: NextAction := Halt): ShipState {
    s.(at := Standing(Blocked, Some(stop), Some(next)))
  }

  function Go(s: ShipState, stage: Stage, next: NextAction): ShipState {
    s.(at := Standing(stage, s.at.lastStop, Some(next)))
  }

  function AppendUnique(list: seq<string>, items: seq<string>): seq<string> {
    if items == [] then list else AddAll(Distinct(list), items)
  }

  function Extend(w: Work, files: seq<string>, refs: seq<string>, checks: seq<Check>): Work {
    Work(AppendUnique(w.changedFiles, files), AppendUnique(w.evidenceRefs, refs), w.checks + checks)
  }

  predicate HasText(list: seq<string>) {
    exists x :: x in list && !Blank(x)
  }

  predicate HasCheck(checks: seq<Check>, outcome: CheckOutcome) {
    exists c :: c in checks && c.outcome == outcome
  }

  predicate IsTextOnly(s: ShipState) {
    s.lane == Hotfix && s.hotfixKind == Some(TextOnly)
  }

  predicate TouchesCode(w: Work) {
    (exists f :: f in w.changedFiles && CodeLooking(f)) || (exists r :: r in w.evidenceRefs && !Blank(r) && CodeLooking(RefPath(r)))
  }

  predicate TextReady(w: Work) {
    HasText(w.changedFiles) && HasText(w.evidenceRefs) && HasCheck(w.checks, Passed) && !TouchesCode(w)
  }

  /** Concrete implementation evidence, as a reviewer-required lane needs it. */
  predicate Evidenced(w: Work) {
    HasText(w.changedFiles) && HasText(w.evidenceRefs) && HasCheck(w.checks, Passed) && !HasCheck(w.checks, Failed)
  }

  predicate KnownNext(next: Option<NextLane>) {
    next.Some? && !next.value.OtherNext?
  }

  predicate GatesMissing(s: ShipState) {
    s.lane == FullSprint && !s.gatesConfirmed
  }

  const PASSING_RESULTS: set<string> := {"passed", "pass", "success", "succeeded", "allowed", "complete", "ok"}

  predicate PassingFinalization(f: Finalization) {
    && !Blank(f.summary) && !Blank(f.auditSummary) && !Blank(f.auditArtifact)
    && f.result.Some? && ToLower(Trim(f.result.value)) in PASSING_RESULTS
  }

  function DefaultReviewerRequired(lane: Lane, kind: Option<HotfixKind>): bool {
    match lane
    case FullSprint => true
    case Hotfix => kind != Some(TextOnly)
    case Debug => false
    case OtherLane(_) => true
  }

  // ---------- The handlers ----------

  function OnDiagnose(s: ShipState, text: string, recommended: NextLane, affected: seq<string>): ShipState {
    if s.lane != Debug || recommended.OtherNext? || Blank(text) then StopAt(s, NoSelectedLane)
    else
      var selected := s.debug.selected;
      var next := if selected.None? then Halt
                  else if selected.value.ToHotfix? || selected.value.ToFullSprint? then Implement else ReportIt;
      Go(s.(debug := Findings(Trim(text), Some(recommended), selected), work := Extend(s.work, [], affected, [])), Diagnosing, next)
  }

  predicate Diagnosed(s: ShipState) {
    !Blank(s.debug.diagnosis) && KnownNext(s.debug.recommended)
  }

  function OnSelectNextLane(s: ShipState, next: NextLane, kind: Option<HotfixKind>): ShipState {
    if s.lane != Debug || !Diagnosed(s) || !(next.ToHotfix? || next.ToFullSprint?) then StopAt(s, NoSelectedLane)
    else
      var lane := if next.ToHotfix? then Hotfix else FullSprint;
      var hotfixKind := if next.ToHotfix? then Some(if kind.Some? then kind.value else CodeChanging) else None;
      Go(s.(debug := s.debug.(selected := Some(next)), hotfixKind := hotfixKind, lane := lane,
            reviewerRequired := DefaultReviewerRequired(lane, hotfixKind)), Fresh, Implement)
  }

  function OnSelectReportOnly(s: ShipState): ShipState {
    if s.lane != Debug || !Diagnosed(s) then StopAt(s, NoSelectedLane)
    else StopAt(s.(debug := s.debug.(selected := Some(ReportOnly)), hotfixKind := None, reviewerRequired := false), ReportOnlyStop, ReportIt)
  }

  function OnImplementStarted(s: ShipState): ShipState {
    if s.lane == Debug then
      if s.debug.selected == Some(ReportOnly) then StopAt(s, ReportOnlyStop, ReportIt) else StopAt(s, NoSelectedLane)
    else if GatesMissing(s) then StopAt(s, GatesNotConfirmed)
    else
      var next := s.(attempts := s.attempts + 1);
      if next.attempts > next.retryBudget then StopAt(next, BudgetExhausted) else Go(next, Implementing, Implement)
  }

  function OnCoderCompleted(s: ShipState, files: seq<string>, refs: seq<string>, checks: seq<Check>): ShipState {
    if s.lane == Debug then StopAt(s, NoSelectedLane)
    else if GatesMissing(s) then StopAt(s, GatesNotConfirmed)
    else
      var next := s.(work := Extend(s.work, files, refs, checks));
      if HasCheck(checks, Failed) then StopAt(next, ChecksFailed)
      else if s.reviewerRequired then Go(next, Reviewing, Review)
      else if IsTextOnly(s) && ((exists f :: f in files && CodeLooking(f)) || !TextReady(next.work))
      then Go(next.(reviewerRequired := true), Reviewing, Review)
      else Go(next, Finalizing, Finalize)
  }

  function OnChangesRequested(s: ShipState, broaderRisk: bool): ShipState {
    var next := s.(verdict := Some(ChangesRequested(broaderRisk)));
    if broaderRisk then StopAt(next.(broaderRiskNoted := true), ScopeExpansion)
    else if s.attempts >= s.retryBudget then StopAt(next, BudgetExhausted)
    else Go(next, Fixing, Fix)
  }

  function OnApproved(s: ShipState): ShipState {
    var next := s.(verdict := Some(Approved));
    if s.reviewerRequired && !Evidenced(s.work) then StopAt(next, ImplementationEvidenceMissing) else Go(next, Finalizing, Finalize)
  }

  function OnEvidenceCollected(s: ShipState, refs: seq<string>, checks: seq<Check>): ShipState {
    if !HasText(refs) && checks == [] then StopAt(s, TextEvidenceMissing)
    else
      var next := s.(work := Extend(s.work, [], refs, checks));
      if IsTextOnly(s) && !TextReady(next.work) then Go(next.(reviewerRequired := true), Reviewing, Review)
      else Go(next, Finalizing, Finalize)
  }

  function OnFocusedFix(s: ShipState, files: seq<string>, refs: seq<string>, checks: seq<Check>): ShipState {
    if s.lane == Debug then StopAt(s, NoSelectedLane)
    else if GatesMissing(s) then StopAt(s, GatesNotConfirmed)
    else
      var next := s.(work := Extend(s.work, files, refs, checks));
      if HasCheck(checks, Failed) then StopAt(next, ChecksFailed)
      else
        var consumed := next.(attempts := s.attempts + 1);
        if consumed.attempts > consumed.retryBudget then StopAt(consumed, BudgetExhausted)
        else if s.reviewerRequired then Go(consumed, Reviewing, Review)
        else Go(consumed, Finalizing, Finalize)
  }

  /** What finalization demands of the durable state, whatever its stage. */
  predicate ReadyToFinalize(s: ShipState) {
    && !GatesMissing(s)
    && (s.lane == Debug ==> Diagnosed(s))
    && (IsTextOnly(s) ==> TextReady(s.work))
    && (if s.reviewerRequired then s.verdict == Some(Approved) && Evidenced(s.work)
        else s.verdict.None? || !s.verdict.value.ChangesRequested?)
  }

  function OnFinalization(s: ShipState, f: Finalization): ShipState {
    if ReadyToFinalize(s) && PassingFinalization(f)
    then Go(s.(finalization := Some(f)), DeliveryComplete, Deliver)
    else
      var kept := if f.result.Some? then f.result else if s.finalization.Some? then s.finalization.value.result else None;
      StopAt(s.(finalization := Some(f.(result := kept))), FinalizationBlocked)
  }

  function Step(s: ShipState, e: Event): ShipState {
    if s.lane.OtherLane? then StopAt(s, NoSelectedLane)
    else
      match e
      case Diagnose(text, recommended, affected) => OnDiagnose(s, text, recommended, affected)
      case SelectNextLane(lane, kind) => OnSelectNextLane(s, lane, kind)
      case SelectReportOnly => OnSelectReportOnly(s)
      case ImplementStarted => OnImplementStarted(s)
      case CoderCompleted(files, refs, checks) => OnCoderCompleted(s, files, refs, checks)
      case ReviewerChangesRequested(broaderRisk) => OnChangesRequested(s, broaderRisk)
      case ReviewerApproved => OnApproved(s)
      case EvidenceCollected(refs, checks) => OnEvidenceCollected(s, refs, checks)
      case FocusedFixCompleted(files, refs, checks) => OnFocusedFix(s, files, refs, checks)
      case FinalizationRecorded(f) => OnFinalization(s, f)
      case RemoteActionRequested(action) => if action in s.permissions then s else StopAt(s, UnauthorizedRemote)
      case MarkBlocked => StopAt(s, ScopeExpansion)
  }

  function Run(s: ShipState, events: seq<Event>): ShipState {
    if events == [] then s else Step(Run(s, events[..|events| - 1]), events[|events| - 1])
  }

  /** `createInitialShipState`, for inputs it does not throw on. */
  datatype StartInput = StartInput(
    lane: Lane, hotfixKind: Option<HotfixKind>, retryBudget: JsNumber, permissions: set<RemoteAction>,
    diagnosis: string, recommended: Option<NextLane>, selected: Option<NextLane>, gatesConfirmed: bool)

  predicate StartAccepted(i: StartInput) {
    !i.lane.OtherLane? && (i.recommended.Some? ==> KnownNext(i.recommended)) && (i.selected.Some? ==> KnownNext(i.selected))
  }

  function Budget(n: JsNumber): int {
    match n
    case Finite(x) => Max(0, x.Floor)
    case _ => 3
  }

  function Initial(i: StartInput): ShipState {
    var nextAction := match i.selected
      case Some(ReportOnly) => Some(ReportIt)
      case Some(ToHotfix) => Some(Implement)
      case Some(ToFullSprint) => Some(Implement)
      case _ => None;
    ShipState(
      i.lane, i.hotfixKind, i.gatesConfirmed, DefaultReviewerRequired(i.lane, i.hotfixKind), 0, Budget(i.retryBudget), i.permissions,
      Standing(if i.lane == Debug then Diagnosing else Fresh, None, nextAction), Work([], [], []), None, false, None,
      Findings(i.diagnosis, i.recommended, i.selected))
  }
}
