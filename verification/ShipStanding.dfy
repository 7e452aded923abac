/** Where a run stands and why: stage, next action and stop condition say the same thing, in every run. */
module ShipStanding {
  import opened Js
  import opened ShipEngine
  import opened ShipRuns
  import CodePaths
  import ShipHistory
  import ShipCommand

  /** What a stop condition claims about the state it was set on; the others speak of the event (`StopsNameTheirEvent`). */
  predicate StopHolds(s: ShipState, stop: Stop) {
    match stop
    case BudgetExhausted => s.attempts >= s.retryBudget
    case ChecksFailed => HasCheck(s.work.checks, Failed)
    case GatesNotConfirmed => GatesMissing(s)
    case ImplementationEvidenceMissing => s.verdict == Some(Approved) && s.reviewerRequired && !Evidenced(s.work)
    case ReportOnlyStop => s.lane == Debug && s.debug.selected == Some(ReportOnly)
    case FinalizationBlocked => s.finalization.Some?
    case UnauthorizedRemote => exists a :: a !in s.permissions
    case _ => true
  }

  /** Stage, next action and the facts of the state agree. */
  predicate Explained(s: ShipState) {
    var next := s.at.nextAction;
    match s.at.stage
    case Fresh => s.lane != Debug && (next == Some(ReportIt) ==> s.debug.selected == Some(ReportOnly))
    case Diagnosing => s.lane == Debug
    case Implementing => next == Some(Implement) && s.lane != Debug && !GatesMissing(s) && s.attempts <= s.retryBudget
    case Reviewing => next == Some(Review) && s.reviewerRequired
    case Fixing => next == Some(Fix) && s.verdict == Some(ChangesRequested(false)) && s.attempts < s.retryBudget
    case Finalizing => next == Some(Finalize)
    case DeliveryComplete => next == Some(Deliver)
    case Blocked => s.at.lastStop.Some? && StopHolds(s, s.at.lastStop.value)
      && (next == Some(Halt) || (next == Some(ReportIt) && s.at.lastStop == Some(ReportOnlyStop)))
    case OtherStage(_) => false
  }

  lemma WorkIsExplained(s: ShipState, files: seq<string>, refs: seq<string>, checks: seq<Check>)
    ensures Explained(OnCoderCompleted(s, files, refs, checks))
  {
    FailuresStay(s.work, files, refs, checks);
    hide Extend, TextReady, HasText, HasCheck, IsTextOnly, Evidenced, CodePaths.CodeLooking;
  }

  lemma EvidenceIsExplained(s: ShipState, refs: seq<string>, checks: seq<Check>)
    ensures Explained(OnEvidenceCollected(s, refs, checks))
  {
    hide Extend, TextReady, HasText, HasCheck, IsTextOnly, Evidenced, GatesMissing;
  }

  lemma FixIsExplained(s: ShipState, files: seq<string>, refs: seq<string>, checks: seq<Check>)
    ensures Explained(OnFocusedFix(s, files, refs, checks))
  {
    FailuresStay(s.work, files, refs, checks);
    hide Extend, HasCheck, Evidenced;
  }

  lemma FailuresStay(w: Work, files: seq<string>, refs: seq<string>, checks: seq<Check>)
    ensures HasCheck(checks, Failed) ==> HasCheck(Extend(w, files, refs, checks).checks, Failed)
  {
    hide AppendUnique;
    if HasCheck(checks, Failed) {
      var c :| c in checks && c.outcome == Failed;
      assert c in w.checks + checks;
    }
  }

  lemma ChoiceIsExplained(s: ShipState, text: string, lane: NextLane, affected: seq<string>, kind: Option<HotfixKind>)
    ensures Explained(OnDiagnose(s, text, lane, affected)) && Explained(OnSelectNextLane(s, lane, kind))
    ensures Explained(OnSelectReportOnly(s)) && Explained(OnImplementStarted(s))
  {
    hide Extend, Blank, Trim, Diagnosed, Evidenced, DefaultReviewerRequired;
  }

  lemma VerdictIsExplained(s: ShipState, broaderRisk: bool)
    ensures Explained(OnChangesRequested(s, broaderRisk)) && Explained(OnApproved(s))
  {
    hide Evidenced;
  }

  lemma FinalizationIsExplained(s: ShipState, f: Finalization)
    ensures Explained(OnFinalization(s, f))
  {
    hide ReadyToFinalize, PassingFinalization, Evidenced;
  }

  /** Whatever state an event meets, fabricated or not, it leaves one that explains itself. */
  lemma EventsExplain(s: ShipState, e: Event)
    requires e.RemoteActionRequested? ==> e.action !in s.permissions
    ensures Explained(Step(s, e))
  {
    hide OnCoderCompleted, OnFocusedFix, OnEvidenceCollected, OnDiagnose, OnSelectNextLane, OnSelectReportOnly, OnImplementStarted,
      OnChangesRequested, OnApproved, OnFinalization, Evidenced;
    match e
    case Diagnose(text, recommended, affected) => ChoiceIsExplained(s, text, recommended, affected, None);
    case SelectNextLane(lane, kind) => ChoiceIsExplained(s, "", lane, [], kind);
    case SelectReportOnly => ChoiceIsExplained(s, "", ReportOnly, [], None);
    case ImplementStarted => ChoiceIsExplained(s, "", ReportOnly, [], None);
    case CoderCompleted(files, refs, checks) => WorkIsExplained(s, files, refs, checks);
    case EvidenceCollected(refs, checks) => EvidenceIsExplained(s, refs, checks);
    case FocusedFixCompleted(files, refs, checks) => FixIsExplained(s, files, refs, checks);
    case ReviewerChangesRequested(broaderRisk) => VerdictIsExplained(s, broaderRisk);
    case ReviewerApproved => VerdictIsExplained(s, false);
    case FinalizationRecorded(f) => FinalizationIsExplained(s, f);
    case RemoteActionRequested(action) =>
    case MarkBlocked =>
  }

  /** Work and evidence stop a run for their own reasons only. */
  lemma WorkStops(s: ShipState, files: seq<string>, refs: seq<string>, checks: seq<Check>)
    ensures var at := OnCoderCompleted(s, files, refs, checks).at; at.stage.Blocked? ==> WorkStop(s, at.lastStop)
    ensures var at := OnFocusedFix(s, files, refs, checks).at; at.stage.Blocked? ==> WorkStop(s, at.lastStop)
    ensures var at := OnEvidenceCollected(s, refs, checks).at;
            && (at.stage.Blocked? ==> at.lastStop == Some(TextEvidenceMissing))
            && (at.stage.Blocked? <==> !HasText(refs) && checks == [])
  {
    hide Extend, TextReady, HasText, HasCheck, GatesMissing, CodePaths.CodeLooking;
  }

  predicate WorkStop(s: ShipState, stop: Option<Stop>) {
    if s.lane == Debug then stop == Some(NoSelectedLane)
    else stop == Some(GatesNotConfirmed) || stop == Some(ChecksFailed) || stop == Some(BudgetExhausted)
  }

  lemma ChoiceStops(s: ShipState, text: string, lane: NextLane, affected: seq<string>, kind: Option<HotfixKind>)
    ensures var at := OnDiagnose(s, text, lane, affected).at; at.stage.Blocked? ==> at.lastStop == Some(NoSelectedLane)
    ensures var at := OnSelectNextLane(s, lane, kind).at; at.stage.Blocked? ==> at.lastStop == Some(NoSelectedLane)
    ensures OnSelectReportOnly(s).at.lastStop == if s.lane == Debug && Diagnosed(s) then Some(ReportOnlyStop) else Some(NoSelectedLane)
    ensures var at := OnImplementStarted(s).at;
            at.stage.Blocked? ==> WorkStop(s, at.lastStop) || (s.lane == Debug && at.lastStop == Some(ReportOnlyStop))
  {
    hide Extend, Blank, Trim, Diagnosed, GatesMissing, DefaultReviewerRequired;
  }

  /** What a stop says about the event that caused it. */
  predicate NamesEvent(s: ShipState, e: Event, stop: Option<Stop>) {
    && (stop == Some(FinalizationBlocked) <==> e.FinalizationRecorded?)
    && (stop == Some(UnauthorizedRemote) <==> e.RemoteActionRequested?)
    && (stop == Some(ScopeExpansion) <==> e.MarkBlocked? || (e.ReviewerChangesRequested? && e.broaderRisk))
    && (stop == Some(TextEvidenceMissing) <==> e.EvidenceCollected?)
    && (stop == Some(NoSelectedLane) ==>
          (s.lane == Debug && ShipHistory.IsImplementation(e)) || e.Diagnose? || e.SelectNextLane? || e.SelectReportOnly?)
  }

  /**
   * Why an event stopped the run, for the stop conditions that the event decides: a refused finalization, a remote action, a broader risk or
   * a mark, evidence that names nothing, and work or choices out of turn.
   */
  lemma StopsNameTheirEvent(s: ShipState, e: Event)
    requires !s.lane.OtherLane? && (e.RemoteActionRequested? ==> e.action !in s.permissions)
    ensures Step(s, e).at.stage.Blocked? ==> NamesEvent(s, e, Step(s, e).at.lastStop)
    ensures e.FinalizationRecorded? ==> (Step(s, e).at.stage.Blocked? <==> !(ReadyToFinalize(s) && PassingFinalization(e.f)))
    ensures e.EvidenceCollected? ==> (Step(s, e).at.stage.Blocked? <==> !HasText(e.refs) && e.checks == [])
    ensures e.SelectReportOnly? ==> (Step(s, e).at.lastStop == Some(ReportOnlyStop) <==> s.lane == Debug && Diagnosed(s))
  {
    hide OnCoderCompleted, OnFocusedFix, OnEvidenceCollected, OnDiagnose, OnSelectNextLane, OnSelectReportOnly, OnImplementStarted,
      ReadyToFinalize, PassingFinalization, Evidenced, HasText, Diagnosed;
    match e
    case Diagnose(text, recommended, affected) => ChoiceStops(s, text, recommended, affected, None);
    case SelectNextLane(lane, kind) => ChoiceStops(s, "", lane, [], kind);
    case SelectReportOnly => ChoiceStops(s, "", ReportOnly, [], None);
    case ImplementStarted => ChoiceStops(s, "", ReportOnly, [], None);
    case CoderCompleted(files, refs, checks) => WorkStops(s, files, refs, checks);
    case EvidenceCollected(refs, checks) => WorkStops(s, [], refs, checks);
    case FocusedFixCompleted(files, refs, checks) => WorkStops(s, files, refs, checks);
    case _ =>
  }

  /**
   * In every created run the stage, the next action and the stop condition agree with the evidence, the verdict, the budget
   * and the confirmations: a run in repair has an open change request and an attempt left, and a
   * blocked run names a reason that holds.
   */
  lemma {:induction false} RunsAreExplained(i: StartInput, events: seq<Event>)
    requires StartAccepted(i)
    ensures Explained(Run(Initial(i), events))
  {
    if events != [] {
      var front, e := events[..|events| - 1], events[|events| - 1];
      RunsAreExplained(i, front);
      var s := Run(Initial(i), front);
      hide Run, Explained;
      if e.RemoteActionRequested? && e.action in s.permissions {
        PermittedChangesNothing(s, e.action);
      } else {
        EventsExplain(s, e);
      }
    }
  }

  lemma PermittedChangesNothing(s: ShipState, action: RemoteAction)
    requires action in s.permissions && Explained(s)
    ensures Explained(Step(s, RemoteActionRequested(action)))
  {
    hide Evidenced;
  }

  // ---------- Remote actions ----------

  /** Neither the command nor the tool grants a permission and no event adds one: every remote action of every created run is refused. */
  lemma RemoteActionsAreDenied(acts: seq<ShipCommand.Act>, id: string, action: RemoteAction)
    requires id in ShipCommand.RunsAfter(acts)
    ensures var s := ShipCommand.RunsAfter(acts)[id];
            && s.permissions == {} && !s.lane.OtherLane?
            && Step(s, RemoteActionRequested(action)) == StopAt(s, UnauthorizedRemote)
  {
    hide ShipCommand.RunsAfter, ShipCommand.Authorised;
    ShipCommand.RunsAreAuthorised(acts, id);
    NothingIsPermitted(acts, id);
    hide DefaultReviewerRequired, ReadyToFinalize, PassingFinalization;
  }

  lemma {:induction false} NothingIsPermitted(acts: seq<ShipCommand.Act>, id: string)
    requires id in ShipCommand.RunsAfter(acts)
    ensures ShipCommand.RunsAfter(acts)[id].permissions == {}
  {
    if acts != [] {
      var front, act := acts[..|acts| - 1], acts[|acts| - 1];
      var runs := ShipCommand.RunsAfter(front);
      if id in runs {
        NothingIsPermitted(front, id);
        if act.ByEvent? {
          StepGrows(runs[id], act.e);
        }
      }
      hide Step, WorkGrows, ShipCommand.CommandOutcome, ShipCommand.ToolOutcome, DefaultReviewerRequired, Budget;
    }
  }
}
