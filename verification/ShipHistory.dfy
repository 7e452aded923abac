/** Whole ship runs: what must have happened, in which order, for a run to stand where it stands. */
module ShipHistory {
  import opened Js
  import opened CodePaths
  import opened ShipEngine
  import opened ShipRuns

  // ---------- Verdicts ----------

  /** The verdict of the last reviewer event. */
  function LastVerdict(start: Option<Verdict>, events: seq<Event>): Option<Verdict> {
    if events == [] then start
    else
      match events[|events| - 1]
      case ReviewerApproved => Some(Approved)
      case ReviewerChangesRequested(broaderRisk) => Some(ChangesRequested(broaderRisk))
      case _ => LastVerdict(start, events[..|events| - 1])
  }

  lemma WorkKeepsVerdict(s: ShipState, files: seq<string>, refs: seq<string>, checks: seq<Check>, f: Finalization)
    ensures OnCoderCompleted(s, files, refs, checks).verdict == s.verdict
    ensures OnFocusedFix(s, files, refs, checks).verdict == s.verdict
    ensures OnEvidenceCollected(s, refs, checks).verdict == s.verdict
    ensures OnFinalization(s, f).verdict == s.verdict
  {
    hide Extend, TextReady, HasText, HasCheck, CodeLooking, GatesMissing, IsTextOnly, ReadyToFinalize, PassingFinalization;
  }

  lemma ChoicesKeepVerdict(s: ShipState, text: string, lane: NextLane, affected: seq<string>, kind: Option<HotfixKind>)
    requires !s.lane.OtherLane?
    ensures OnDiagnose(s, text, lane, affected).verdict == s.verdict
    ensures var t := OnSelectNextLane(s, lane, kind); t.verdict == s.verdict && !t.lane.OtherLane?
    ensures OnSelectReportOnly(s).verdict == s.verdict && OnSelectReportOnly(s).lane == s.lane
    ensures OnImplementStarted(s).verdict == s.verdict
  {
    hide Extend, Blank, Trim, Diagnosed, GatesMissing, DefaultReviewerRequired;
  }

  lemma StepVerdict(s: ShipState, e: Event)
    requires !s.lane.OtherLane?
    ensures Step(s, e).verdict ==
            match e
            case ReviewerApproved => Some(Approved)
            case ReviewerChangesRequested(broaderRisk) => Some(ChangesRequested(broaderRisk))
            case _ => s.verdict
    ensures !Step(s, e).lane.OtherLane?
  {
    OnlyPromotionLeavesDebug(s, e);
    StepGrows(s, e);
    hide OnCoderCompleted, OnFocusedFix, OnEvidenceCollected, OnDiagnose, OnSelectNextLane, OnSelectReportOnly, OnImplementStarted,
      OnFinalization, Evidenced, WorkGrows;
    match e
    case Diagnose(text, recommended, affected) => ChoicesKeepVerdict(s, text, recommended, affected, None);
    case SelectNextLane(lane, kind) => ChoicesKeepVerdict(s, "", lane, [], kind);
    case SelectReportOnly => ChoicesKeepVerdict(s, "", ReportOnly, [], None);
    case ImplementStarted => ChoicesKeepVerdict(s, "", ReportOnly, [], None);
    case CoderCompleted(files, refs, checks) => WorkKeepsVerdict(s, files, refs, checks, Finalization("", None, "", ""));
    case EvidenceCollected(refs, checks) => WorkKeepsVerdict(s, [], refs, checks, Finalization("", None, "", ""));
    case FocusedFixCompleted(files, refs, checks) => WorkKeepsVerdict(s, files, refs, checks, Finalization("", None, "", ""));
    case FinalizationRecorded(f) => WorkKeepsVerdict(s, [], [], [], f);
    case _ =>
  }

  /** The durable verdict is the last reviewer event's, whatever happened since. */
  lemma {:induction false} VerdictIsLastReview(s: ShipState, events: seq<Event>)
    requires !s.lane.OtherLane?
    ensures Run(s, events).verdict == LastVerdict(s.verdict, events)
    ensures !Run(s, events).lane.OtherLane?
  {
    if events != [] {
      VerdictIsLastReview(s, events[..|events| - 1]);
      StepVerdict(Run(s, events[..|events| - 1]), events[|events| - 1]);
      hide Step;
    }
  }

  // ---------- Created runs ----------

  /** A code-changing lane keeps its reviewer, and a delivered state still meets every condition of delivery. */
  ghost predicate Sound(s: ShipState) {
    && !s.lane.OtherLane?
    && (DefaultReviewerRequired(s.lane, s.hotfixKind) ==> s.reviewerRequired)
    && (s.at.stage.DeliveryComplete? ==>
          ReadyToFinalize(s) && s.finalization.Some? && PassingFinalization(s.finalization.value))
  }

  lemma ReviewerStaysDefault(s: ShipState, e: Event)
    requires !s.lane.OtherLane? && (DefaultReviewerRequired(s.lane, s.hotfixKind) ==> s.reviewerRequired)
    ensures var t := Step(s, e); DefaultReviewerRequired(t.lane, t.hotfixKind) ==> t.reviewerRequired
  {
    if s.lane != Debug {
      StepGrows(s, e);
      hide Step, WorkGrows;
    } else {
      hide Extend, TextReady, HasText, HasCheck, CodeLooking, GatesMissing, Diagnosed, Blank, ReadyToFinalize,
        PassingFinalization, Evidenced, Trim;
    }
  }

  /** A delivered state is left by every event but an authorised remote action, which changes nothing, and a finalization that delivers again. */
  lemma StepSound(s: ShipState, e: Event)
    requires Sound(s)
    ensures Sound(Step(s, e))
  {
    StepVerdict(s, e);
    ReviewerStaysDefault(s, e);
    if e.RemoteActionRequested? {
      hide ReadyToFinalize, PassingFinalization;
    } else {
      hide Step, ReadyToFinalize, PassingFinalization;
      DeliveryIff(s, e);
      if Step(s, e).at.stage.DeliveryComplete? {
        DeliveryIsSafe(s, e);
        DeliveryKeepsTheBar(s, Step(s, e));
      }
    }
  }

  lemma DeliveryKeepsTheBar(s: ShipState, t: ShipState)
    requires t == s.(finalization := t.finalization, at := t.at)
    ensures ReadyToFinalize(t) == ReadyToFinalize(s)
  {
    hide TextReady, Evidenced, Blank;
  }

  lemma {:induction false} RunSound(s: ShipState, events: seq<Event>)
    requires Sound(s)
    ensures Sound(Run(s, events))
  {
    if events != [] {
      RunSound(s, events[..|events| - 1]);
      StepSound(Run(s, events[..|events| - 1]), events[|events| - 1]);
      hide Step;
    }
  }

  /**
   * Every run the supervisor created that stands delivered: on a full sprint or a code-changing hotfix the last
   * reviewer event is an approval and the evidence is complete; without a reviewer, a text-only
   * hotfix names no code in files or refs; and the recorded finalization and audit pass.
   */
  lemma DeliveredRunsMetTheirBar(i: StartInput, events: seq<Event>)
    requires StartAccepted(i) && Run(Initial(i), events).at.stage.DeliveryComplete?
    ensures var t := Run(Initial(i), events);
            && (t.lane == FullSprint || (t.lane == Hotfix && t.hotfixKind != Some(TextOnly)) ==>
                  LastVerdict(None, events) == Some(Approved) && Evidenced(t.work))
            && (t.lane == FullSprint ==> i.gatesConfirmed)
            && (IsTextOnly(t) && LastVerdict(None, events) != Some(Approved) ==> !t.reviewerRequired && !TouchesCode(t.work))
            && t.finalization.Some? && PassingFinalization(t.finalization.value)
  {
    var t := Run(Initial(i), events);
    RunSound(Initial(i), events);
    VerdictIsLastReview(Initial(i), events);
    RunGrows(Initial(i), events);
    hide Run, PassingFinalization, Evidenced, TouchesCode, Budget, HasText, HasCheck, LastVerdict, WorkGrows;
  }

  // ---------- Debug runs ----------

  predicate IsImplementation(e: Event) {
    e.ImplementStarted? || e.CoderCompleted? || e.FocusedFixCompleted?
  }

  /** A promotion: the explicit choice of an implementation lane, made on a debug run with a diagnosis and a recommendation. */
  ghost predicate Promotes(s: ShipState, e: Event) {
    s.lane == Debug && e.SelectNextLane? && (e.lane.ToHotfix? || e.lane.ToFullSprint?)
    && !Blank(s.debug.diagnosis) && KnownNext(s.debug.recommended)
  }

  lemma OnlyPromotionLeavesDebug(s: ShipState, e: Event)
    ensures s.lane == Debug ==> (Step(s, e).lane != Debug <==> Promotes(s, e))
  {
    hide Extend, HasText, TextReady, Evidenced, ReadyToFinalize, PassingFinalization, Blank, Trim, KnownNext;
  }

  /** On the debug lane implementation events are turned away: nothing but the standing changes. */
  lemma DebugRefusesWork(s: ShipState, e: Event)
    requires s.lane == Debug && IsImplementation(e)
    ensures var t := Step(s, e); t == s.(at := t.at) && t.at.stage.Blocked?
  {
  }

  /** A debug run that takes an implementation event was promoted, by choice and after a diagnosis; a recommendation alone never does. */
  lemma {:induction false} DebugIsAuditFirst(s: ShipState, events: seq<Event>)
    requires s.lane == Debug && Run(s, events).lane != Debug
    ensures exists k :: 0 <= k < |events| && Promotes(Run(s, events[..k]), events[k])
  {
    var n := |events| - 1;
    if Run(s, events[..n]).lane == Debug {
      OnlyPromotionLeavesDebug(Run(s, events[..n]), events[n]);
      assert Promotes(Run(s, events[..n]), events[n]);
    } else {
      DebugIsAuditFirst(s, events[..n]);
      var k :| 0 <= k < n && Promotes(Run(s, events[..n][..k]), events[..n][k]);
      assert events[..n][..k] == events[..k];
    }
    hide Step, Promotes;
  }

  /** A debug run promoted to a full sprint can never be delivered: no event confirms the planning gates it was created without. */
  lemma PromotedSprintIsDead(i: StartInput, events: seq<Event>, more: seq<Event>)
    requires i.lane == Debug && !i.gatesConfirmed
    requires Run(Initial(i), events).lane == FullSprint
    ensures !Run(Run(Initial(i), events), more).at.stage.DeliveryComplete?
  {
    RunGrows(Initial(i), events);
    var s := Run(Initial(i), events);
    if Run(s, more).at.stage.DeliveryComplete? {
      RunSplits(Initial(i), events, more);
      RunGrows(s, more);
      RunSound(Initial(i), events + more);
      hide Run, WorkGrows, PassingFinalization, Budget;
    }
  }

  // ---------- Attempts ----------

  /** Whether the event opened an implementation attempt or a focused fix. */
  predicate Opens(s: ShipState, e: Event) {
    (e.ImplementStarted? || e.FocusedFixCompleted?) && !Step(s, e).at.stage.Blocked?
  }

  function Opened(s: ShipState, events: seq<Event>): nat {
    if events == [] then 0
    else
      var front := events[..|events| - 1];
      Opened(s, front) + if Opens(Run(s, front), events[|events| - 1]) then 1 else 0
  }

  lemma OpeningUsesAnAttempt(s: ShipState, e: Event)
    requires Opens(s, e)
    ensures Step(s, e).attempts == s.attempts + 1 <= s.retryBudget
  {
    hide Extend, HasCheck, GatesMissing;
  }

  /** Whatever the order of events, and from any state, no more attempts are opened than the retry budget has left. */
  lemma {:induction false} AttemptsAreBounded(s: ShipState, events: seq<Event>)
    ensures Opened(s, events) <= Run(s, events).attempts - s.attempts
    ensures Opened(s, events) > 0 ==> s.attempts + Opened(s, events) <= s.retryBudget
  {
    if events != [] {
      var front, e := events[..|events| - 1], events[|events| - 1];
      AttemptsAreBounded(s, front);
      RunGrows(s, front);
      StepGrows(Run(s, front), e);
      if Opens(Run(s, front), e) {
        OpeningUsesAnAttempt(Run(s, front), e);
      }
      hide Step, Opens, WorkGrows;
    }
  }

  // ---------- The repair loop ----------

  /** A run on which work counts and a reviewer must approve. */
  predicate UnderReview(s: ShipState) {
    (s.lane == FullSprint || s.lane == Hotfix) && !GatesMissing(s) && s.reviewerRequired
  }

  predicate CleanFix(e: Event) {
    e.FocusedFixCompleted? && !HasCheck(e.checks, Failed)
  }

  /** Start, complete, and then one round of changes requested and fix for each given fix. */
  function Repaired(s: ShipState, coder: Event, fixes: seq<Event>): ShipState {
    if fixes == [] then Step(Step(s, ImplementStarted), coder)
    else Step(Step(Repaired(s, coder, fixes[..|fixes| - 1]), ReviewerChangesRequested(false)), fixes[|fixes| - 1])
  }

  lemma WorkStarts(s: ShipState, coder: Event)
    requires UnderReview(s) && s.attempts < s.retryBudget && coder.CoderCompleted? && !HasCheck(coder.checks, Failed)
    ensures var t := Step(Step(s, ImplementStarted), coder);
            UnderReview(t) && t.attempts == s.attempts + 1 && t.retryBudget == s.retryBudget && t.at.stage == Reviewing
  {
    hide Extend, HasCheck, TextReady, CodeLooking;
  }

  lemma FixReturnsToReview(s: ShipState, fix: Event)
    requires UnderReview(s) && s.attempts < s.retryBudget && CleanFix(fix)
    ensures var t := Step(Step(s, ReviewerChangesRequested(false)), fix);
            UnderReview(t) && t.attempts == s.attempts + 1 && t.retryBudget == s.retryBudget && t.at.stage == Reviewing
  {
    hide Extend, HasCheck;
  }

  /**
   * With a budget of b, the first b - 1 change requests go to a fix and the b-th stops the run,
   * whatever files, references and passing checks the attempts bring.
   */
  lemma {:induction false} RepairsAreBounded(s: ShipState, coder: Event, fixes: seq<Event>)
    requires UnderReview(s) && s.attempts == 0 && |fixes| < s.retryBudget
    requires coder.CoderCompleted? && !HasCheck(coder.checks, Failed)
    requires forall i :: 0 <= i < |fixes| ==> CleanFix(fixes[i])
    ensures var t := Repaired(s, coder, fixes);
            && UnderReview(t) && t.attempts == |fixes| + 1 && t.retryBudget == s.retryBudget && t.at.stage == Reviewing
            && (var at := Step(t, ReviewerChangesRequested(false)).at;
                if |fixes| + 1 < s.retryBudget then at.stage == Fixing else at.stage == Blocked && at.lastStop == Some(BudgetExhausted))
  {
    if fixes == [] {
      WorkStarts(s, coder);
    } else {
      RepairsAreBounded(s, coder, fixes[..|fixes| - 1]);
      FixReturnsToReview(Repaired(s, coder, fixes[..|fixes| - 1]), fixes[|fixes| - 1]);
    }
    hide HasCheck, OnCoderCompleted, OnFocusedFix, OnImplementStarted, UnderReview, CleanFix;
  }

  // ---------- Work after an approval ----------

  predicate IsReview(e: Event) {
    e.ReviewerApproved? || e.ReviewerChangesRequested?
  }

  lemma {:induction false} NoReviewKeepsVerdict(start: Option<Verdict>, events: seq<Event>)
    requires forall k :: 0 <= k < |events| ==> !IsReview(events[k])
    ensures LastVerdict(start, events) == start
  {
    if events != [] {
      NoReviewKeepsVerdict(start, events[..|events| - 1]);
    }
  }

  /**
   * An approval is not withdrawn by anything but a reviewer: after any events no reviewer saw, coder work, fixes, evidence, blocked attempts and
   * failed finalizations included, a run that was ready for delivery is still ready exactly when no failed check
   * has been recorded and, on a text-only hotfix, no code has been named.
   */
  lemma ApprovalSurvivesLaterWork(s: ShipState, events: seq<Event>)
    requires ReadyToFinalize(s) && s.reviewerRequired && (s.lane == FullSprint || s.lane == Hotfix)
    requires forall k :: 0 <= k < |events| ==> !IsReview(events[k])
    ensures var t := Run(s, events);
            ReadyToFinalize(t) <==> !HasCheck(t.work.checks, Failed) && (IsTextOnly(s) ==> !TouchesCode(t.work))
  {
    var t := Run(s, events);
    RunGrows(s, events);
    VerdictIsLastReview(s, events);
    NoReviewKeepsVerdict(s.verdict, events);
    GrownWorkHolds(s.work, t.work);
    hide Run, LastVerdict, HasText, HasCheck, TouchesCode, WorkGrows;
  }

  lemma GrownWorkHolds(v: Work, w: Work)
    requires WorkGrows(v, w)
    ensures (HasText(v.changedFiles) ==> HasText(w.changedFiles)) && (HasText(v.evidenceRefs) ==> HasText(w.evidenceRefs))
    ensures HasCheck(v.checks, Passed) ==> HasCheck(w.checks, Passed)
  {
    hide Blank;
    if HasCheck(v.checks, Passed) {
      var c :| c in v.checks && c.outcome == Passed;
      assert c in w.checks;
    }
  }

  /** One completion, in terms of what it reports; its files are on record afterwards. */
  lemma ApprovalSurvivesOneCompletion(s: ShipState, e: Event)
    requires ReadyToFinalize(s) && s.reviewerRequired && (s.lane == FullSprint || s.lane == Hotfix)
    requires e.CoderCompleted?
    ensures ReadyToFinalize(Step(s, e))
            <==> !HasCheck(e.checks, Failed) && (IsTextOnly(s) ==> !TouchesCode(Extend(s.work, e.files, e.refs, e.checks)))
    ensures forall f :: f in e.files && !Blank(f) ==> f in Step(s, e).work.changedFiles
  {
    EvidenceAccumulates(s.work, e.files, e.refs, e.checks);
    hide TouchesCode, HasCheck, HasText, Extend, Diagnosed, CodeLooking, Blank;
  }

  lemma EvidenceAccumulates(w: Work, files: seq<string>, refs: seq<string>, checks: seq<Check>)
    ensures var v := Extend(w, files, refs, checks);
            && (HasText(w.changedFiles) ==> HasText(v.changedFiles)) && (HasText(w.evidenceRefs) ==> HasText(v.evidenceRefs))
            && (forall o :: HasCheck(v.checks, o) <==> HasCheck(w.checks, o) || HasCheck(checks, o))
            && (forall f :: f in files && !Blank(f) ==> f in v.changedFiles)
  {
    AppendUniqueMembers(w.changedFiles, files);
    AppendUniqueMembers(w.evidenceRefs, refs);
    hide AppendUnique, Blank;
  }
}
