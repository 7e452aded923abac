/** Which fields of the durable state an event writes, and with what; `ShipRecords` has the lists and `ShipStanding` the stage. */
module ShipFields {
  import opened Js
  import opened CodePaths
  import opened ShipEngine
  import opened ShipRuns
  import opened ShipHistory
  import opened ShipRecords

  /** A next lane is chosen on the debug lane once there is a diagnosis and a recommendation. */
  ghost predicate TakesChoice(s: ShipState) {
    s.lane == Debug && !Blank(s.debug.diagnosis) && s.debug.recommended.Some? && !s.debug.recommended.value.OtherNext?
  }

  ghost predicate TakesPromotion(s: ShipState, e: Event) {
    TakesChoice(s) && e.SelectNextLane? && (e.lane == ToHotfix || e.lane == ToFullSprint)
  }

  ghost predicate TakesReportOnly(s: ShipState, e: Event) {
    TakesChoice(s) && e.SelectReportOnly?
  }

  /** An attempt is counted where implementation starts, and where a focused fix is done without a failed check. */
  ghost predicate CountsAttempt(s: ShipState, e: Event) {
    TakesWork(s) && (e.ImplementStarted? || (e.FocusedFixCompleted? && forall c :: c in e.checks ==> c.outcome != Failed))
  }

  /** Text-only work that names code, or that leaves the run without what it needs to go unreviewed, brings the reviewer in. */
  ghost predicate CallsReviewer(s: ShipState, e: Event, t: ShipState) {
    && s.lane == Hotfix && s.hotfixKind == Some(TextOnly)
    && (|| (&& e.CoderCompleted? && (forall c :: c in e.checks ==> c.outcome != Failed)
            && ((exists f :: f in e.files && CodeLooking(f)) || !TextReady(t.work)))
        || (TakesEvidence(s, e) && !TextReady(t.work)))
  }

  // ---------- Lane, kind and findings ----------

  ghost predicate LaneFields(s: ShipState, e: Event, t: ShipState) {
    if TakesPromotion(s, e) then
      if e.lane == ToHotfix then t.lane == Hotfix && t.hotfixKind == Some(if e.kind.Some? then e.kind.value else CodeChanging)
      else t.lane == FullSprint && t.hotfixKind == None
    else t.lane == s.lane && t.hotfixKind == if TakesReportOnly(s, e) then None else s.hotfixKind
  }

  ghost predicate FindingFields(s: ShipState, e: Event, t: ShipState) {
    t.debug
    == if TakesDiagnosis(s, e) then Findings(Trim(e.text), Some(e.recommended), s.debug.selected)
       else if TakesPromotion(s, e) then Findings(s.debug.diagnosis, s.debug.recommended, Some(e.lane))
       else if TakesReportOnly(s, e) then Findings(s.debug.diagnosis, s.debug.recommended, Some(ReportOnly))
       else s.debug
  }

  lemma ChoicesWriteLanes(s: ShipState, e: Event)
    requires !s.lane.OtherLane? && (e.SelectNextLane? || e.SelectReportOnly?)
    ensures LaneFields(s, e, Step(s, e))
  {
    hide Blank, DefaultReviewerRequired;
  }

  lemma OthersKeepLanes(s: ShipState, e: Event)
    requires !s.lane.OtherLane? && !(e.SelectNextLane? || e.SelectReportOnly?)
    ensures LaneFields(s, e, Step(s, e))
  {
    hide Extend, HasCheck, HasText, TextReady, CodeLooking, GatesMissing, Evidenced, ReadyToFinalize, PassingFinalization, Blank, Trim, IsTextOnly,
      TakesChoice;
  }

  lemma LanesAreWritten(s: ShipState, e: Event)
    requires !s.lane.OtherLane?
    ensures LaneFields(s, e, Step(s, e))
  {
    hide Step, LaneFields;
    if e.SelectNextLane? || e.SelectReportOnly? {
      ChoicesWriteLanes(s, e);
    } else {
      OthersKeepLanes(s, e);
    }
  }

  lemma FindingsAreWritten(s: ShipState, e: Event)
    requires !s.lane.OtherLane?
    ensures FindingFields(s, e, Step(s, e))
  {
    hide Extend, HasCheck, HasText, TextReady, CodeLooking, GatesMissing, Evidenced, ReadyToFinalize, PassingFinalization, Blank, Trim,
      DefaultReviewerRequired, IsTextOnly;
  }

  // ---------- Attempts and the reviewer ----------

  lemma AttemptsAreWritten(s: ShipState, e: Event)
    requires !s.lane.OtherLane?
    ensures var t := Step(s, e); t.attempts == s.attempts + if CountsAttempt(s, e) then 1 else 0
  {
    hide Extend, HasText, TextReady, CodeLooking, Evidenced, ReadyToFinalize, PassingFinalization, Diagnosed, Blank, Trim,
      DefaultReviewerRequired, IsTextOnly;
  }

  /** A promotion sets the reviewer by lane and kind, the report-only choice drops it, text-only work may bring it in; nothing else touches it. */
  ghost predicate ReviewerField(s: ShipState, e: Event, t: ShipState) {
    t.reviewerRequired
    <==> if TakesPromotion(s, e) then e.lane == ToFullSprint || e.kind != Some(TextOnly)
         else if TakesReportOnly(s, e) then false
         else s.reviewerRequired || CallsReviewer(s, e, t)
  }

  lemma WorkSetsReviewer(s: ShipState, e: Event)
    requires e.CoderCompleted? || e.EvidenceCollected?
    ensures ReviewerField(s, e, Step(s, e))
  {
    hide Extend, TextReady, CodeLooking, Blank;
  }

  lemma ChoiceSetsReviewer(s: ShipState, e: Event)
    requires !(e.CoderCompleted? || e.EvidenceCollected?)
    ensures ReviewerField(s, e, Step(s, e))
  {
    hide Extend, HasCheck, TextReady, CodeLooking, GatesMissing, Evidenced, ReadyToFinalize, PassingFinalization, Blank, Trim;
  }

  // ---------- Review and finalization ----------

  /** The verdict of a review, the note of a broader risk, and the finalization record with the result it had before if none is given. */
  ghost predicate OutcomeFields(s: ShipState, e: Event, t: ShipState) {
    && t.verdict == (if e.ReviewerApproved? then Some(Approved)
                     else if e.ReviewerChangesRequested? then Some(ChangesRequested(e.broaderRisk)) else s.verdict)
    && (t.broaderRiskNoted <==> s.broaderRiskNoted || (e.ReviewerChangesRequested? && e.broaderRisk))
    && (if e.FinalizationRecorded? then
          && t.finalization.Some?
          && t.finalization.value.summary == e.f.summary && t.finalization.value.auditSummary == e.f.auditSummary
          && t.finalization.value.auditArtifact == e.f.auditArtifact
          && t.finalization.value.result
             == if e.f.result.Some? then e.f.result else if s.finalization.Some? then s.finalization.value.result else None
        else t.finalization == s.finalization)
  }

  lemma OutcomesAreWritten(s: ShipState, e: Event)
    requires !s.lane.OtherLane?
    ensures OutcomeFields(s, e, Step(s, e))
  {
    hide Step, OutcomeFields;
    if e.FinalizationRecorded? {
      FinalizationIsWritten(s, e.f);
    } else {
      OthersKeepFinalization(s, e);
      StepVerdict(s, e);
      OutcomesJoin(s, e, Step(s, e));
    }
  }

  lemma OutcomesJoin(s: ShipState, e: Event, t: ShipState)
    requires !e.FinalizationRecorded? && t.finalization == s.finalization
    requires t.broaderRiskNoted <==> s.broaderRiskNoted || (e.ReviewerChangesRequested? && e.broaderRisk)
    requires t.verdict == match e
                          case ReviewerApproved => Some(Approved)
                          case ReviewerChangesRequested(broaderRisk) => Some(ChangesRequested(broaderRisk))
                          case _ => s.verdict
    ensures OutcomeFields(s, e, t)
  {
  }

  lemma OthersKeepFinalization(s: ShipState, e: Event)
    requires !s.lane.OtherLane? && !e.FinalizationRecorded?
    ensures var t := Step(s, e);
            t.finalization == s.finalization && (t.broaderRiskNoted <==> s.broaderRiskNoted || (e.ReviewerChangesRequested? && e.broaderRisk))
  {
    hide Extend, HasCheck, HasText, TextReady, CodeLooking, GatesMissing, Evidenced, ReadyToFinalize, PassingFinalization, Blank, Trim,
      DefaultReviewerRequired, IsTextOnly, Diagnosed;
  }

  lemma FinalizationIsWritten(s: ShipState, f: Finalization)
    requires !s.lane.OtherLane?
    ensures OutcomeFields(s, FinalizationRecorded(f), Step(s, FinalizationRecorded(f)))
  {
    PassingHasResult(f);
    hide ReadyToFinalize, PassingFinalization;
  }

  lemma PassingHasResult(f: Finalization)
    ensures PassingFinalization(f) ==> f.result.Some?
  {
    hide Blank, ToLower, Trim;
  }

  /**
   * Every field of the state after an event, besides the three lists and the standing: budget, permissions and confirmations stay, and lane, kind, findings,
   * attempts, reviewer, verdict, risk note and finalization are written by the events named here alone.
   */
  lemma StepWritesFields(s: ShipState, e: Event)
    requires !s.lane.OtherLane?
    ensures var t := Step(s, e);
            && t.retryBudget == s.retryBudget && t.permissions == s.permissions && t.gatesConfirmed == s.gatesConfirmed
            && LaneFields(s, e, t) && FindingFields(s, e, t) && ReviewerField(s, e, t) && OutcomeFields(s, e, t)
            && t.attempts == s.attempts + if CountsAttempt(s, e) then 1 else 0
  {
    StepGrows(s, e);
    LanesAreWritten(s, e);
    FindingsAreWritten(s, e);
    AttemptsAreWritten(s, e);
    OutcomesAreWritten(s, e);
    if e.CoderCompleted? || e.EvidenceCollected? {
      WorkSetsReviewer(s, e);
    } else {
      ChoiceSetsReviewer(s, e);
    }
    hide Step, LaneFields, FindingFields, ReviewerField, OutcomeFields, CountsAttempt, WorkGrows;
  }

  // ---------- What comes next ----------

  /** Where the debug lane's own events leave a run: a diagnosis says what may be done next, by the lane chosen before, and a promotion starts over. */
  lemma DebugEventsStand(s: ShipState, e: Event)
    requires !s.lane.OtherLane?
    ensures var t := Step(s, e);
            && (TakesDiagnosis(s, e) ==>
                  t.at == Standing(Diagnosing, s.at.lastStop, Some(
                    if s.debug.selected == None then Halt
                    else if s.debug.selected == Some(ToHotfix) || s.debug.selected == Some(ToFullSprint) then Implement else ReportIt)))
            && (TakesPromotion(s, e) ==> t.at == Standing(Fresh, s.at.lastStop, Some(Implement)))
            && (TakesReportOnly(s, e) ==> t.at == Standing(Blocked, Some(ReportOnlyStop), Some(ReportIt)))
            && (e.Diagnose? || e.SelectNextLane? || e.SelectReportOnly? ==>
                  TakesDiagnosis(s, e) || TakesPromotion(s, e) || TakesReportOnly(s, e)
                  || (t.work == s.work && t.debug == s.debug && t.at == Standing(Blocked, Some(NoSelectedLane), Some(Halt))))
  {
    hide Extend, Blank, Trim, DefaultReviewerRequired;
  }
}
