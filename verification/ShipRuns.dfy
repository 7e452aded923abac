/** What the ship engine guarantees over whole event sequences, from created and from fabricated states. */
module ShipRuns {
  import opened Js
  import opened CodePaths
  import opened ShipEngine

  // ---------- One step ----------

  lemma WorkDoesNotDeliver(s: ShipState, files: seq<string>, refs: seq<string>, checks: seq<Check>)
    ensures !OnCoderCompleted(s, files, refs, checks).at.stage.DeliveryComplete?
    ensures !OnFocusedFix(s, files, refs, checks).at.stage.DeliveryComplete?
    ensures !OnEvidenceCollected(s, refs, checks).at.stage.DeliveryComplete?
  {
    hide Extend, TextReady, HasText, HasCheck, CodeLooking, GatesMissing, IsTextOnly;
  }

  lemma ChoicesDoNotDeliver(s: ShipState, text: string, lane: NextLane, affected: seq<string>, kind: Option<HotfixKind>)
    ensures !OnDiagnose(s, text, lane, affected).at.stage.DeliveryComplete?
    ensures !OnSelectNextLane(s, lane, kind).at.stage.DeliveryComplete?
    ensures !OnSelectReportOnly(s).at.stage.DeliveryComplete?
    ensures !OnImplementStarted(s).at.stage.DeliveryComplete?
  {
    hide Extend, Blank, Trim, Diagnosed, GatesMissing;
  }

  /** Delivery happens at finalization only, exactly when the durable state and the finalization record allow it. */
  lemma DeliveryIff(s: ShipState, e: Event)
    requires e.RemoteActionRequested? ==> !s.at.stage.DeliveryComplete?
    ensures Step(s, e).at.stage.DeliveryComplete?
            <==> !s.lane.OtherLane? && e.FinalizationRecorded? && ReadyToFinalize(s) && PassingFinalization(e.f)
  {
    hide OnCoderCompleted, OnFocusedFix, OnEvidenceCollected, OnDiagnose, OnSelectNextLane, OnSelectReportOnly, OnImplementStarted,
      ReadyToFinalize, PassingFinalization, Evidenced;
    match e
    case Diagnose(text, recommended, affected) => ChoicesDoNotDeliver(s, text, recommended, affected, None);
    case SelectNextLane(lane, kind) => ChoicesDoNotDeliver(s, "", lane, [], kind);
    case SelectReportOnly => ChoicesDoNotDeliver(s, "", ReportOnly, [], None);
    case ImplementStarted => ChoicesDoNotDeliver(s, "", ReportOnly, [], None);
    case CoderCompleted(files, refs, checks) => WorkDoesNotDeliver(s, files, refs, checks);
    case EvidenceCollected(refs, checks) => WorkDoesNotDeliver(s, [], refs, checks);
    case FocusedFixCompleted(files, refs, checks) => WorkDoesNotDeliver(s, files, refs, checks);
    case _ =>
  }

  /** A fabricated state does not help: what reaches delivery on a reviewer-required run is approved and evidenced. */
  lemma DeliveryIsSafe(s: ShipState, e: Event)
    requires Step(s, e).at.stage.DeliveryComplete?
    requires e.RemoteActionRequested? ==> !s.at.stage.DeliveryComplete?
    ensures s.reviewerRequired ==>
      && s.verdict == Some(Approved)
      && HasText(s.work.changedFiles) && HasText(s.work.evidenceRefs) && HasCheck(s.work.checks, Passed) && !HasCheck(s.work.checks, Failed)
    ensures s.lane == FullSprint ==> s.gatesConfirmed
    ensures IsTextOnly(s) ==> !TouchesCode(s.work)
    ensures var d := Step(s, e); d.finalization.Some? && PassingFinalization(d.finalization.value)
    ensures var d := Step(s, e); d == s.(finalization := d.finalization, at := d.at)
  {
    DeliveryIff(s, e);
    hide PassingFinalization, Diagnosed, HasText, HasCheck, TouchesCode;
  }

  // ---------- What no event undoes ----------

  lemma AppendUniqueMembers(list: seq<string>, items: seq<string>)
    ensures forall x :: x in AppendUnique(list, items) <==> x in list || (x in items && !Blank(x))
  {
    DistinctKeepsMembers(list);
    AddAllMembers(Distinct(list), items);
    hide Blank, AddAll, Distinct;
  }

  ghost predicate WorkGrows(v: Work, w: Work) {
    && (forall f :: f in v.changedFiles ==> f in w.changedFiles)
    && (forall r :: r in v.evidenceRefs ==> r in w.evidenceRefs)
    && v.checks <= w.checks
  }

  ghost predicate Grows(s: ShipState, t: ShipState) {
    && WorkGrows(s.work, t.work)
    && s.attempts <= t.attempts
    && t.retryBudget == s.retryBudget && t.gatesConfirmed == s.gatesConfirmed && t.permissions == s.permissions
    && (s.lane != Debug ==> t.lane == s.lane && t.hotfixKind == s.hotfixKind && (s.reviewerRequired ==> t.reviewerRequired))
  }

  lemma ExtendGrows(w: Work, files: seq<string>, refs: seq<string>, checks: seq<Check>)
    ensures WorkGrows(w, Extend(w, files, refs, checks)) && WorkGrows(w, w)
  {
    AppendUniqueMembers(w.changedFiles, files);
    AppendUniqueMembers(w.evidenceRefs, refs);
    hide Blank, AppendUnique;
  }

  lemma CoderGrows(s: ShipState, files: seq<string>, refs: seq<string>, checks: seq<Check>)
    ensures Grows(s, OnCoderCompleted(s, files, refs, checks))
  {
    hide TextReady, HasCheck, CodeLooking, GatesMissing, IsTextOnly, WorkGrows, Extend;
    ExtendGrows(s.work, files, refs, checks);
  }

  lemma FixGrows(s: ShipState, files: seq<string>, refs: seq<string>, checks: seq<Check>)
    ensures Grows(s, OnFocusedFix(s, files, refs, checks))
  {
    hide HasCheck, GatesMissing, WorkGrows, Extend;
    ExtendGrows(s.work, files, refs, checks);
  }

  lemma EvidenceGrows(s: ShipState, refs: seq<string>, checks: seq<Check>)
    ensures Grows(s, OnEvidenceCollected(s, refs, checks))
  {
    hide TextReady, HasText, WorkGrows, Extend;
    ExtendGrows(s.work, [], refs, checks);
  }

  lemma DiagnoseGrows(s: ShipState, text: string, recommended: NextLane, affected: seq<string>)
    ensures Grows(s, OnDiagnose(s, text, recommended, affected))
  {
    hide Extend, Blank, Trim, WorkGrows;
    ExtendGrows(s.work, [], affected, []);
  }

  lemma SelectGrows(s: ShipState, lane: NextLane, kind: Option<HotfixKind>)
    ensures Grows(s, OnSelectNextLane(s, lane, kind)) && Grows(s, OnSelectReportOnly(s))
  {
    hide Diagnosed, DefaultReviewerRequired, WorkGrows;
    ExtendGrows(s.work, [], [], []);
  }

  lemma ImplementGrows(s: ShipState)
    ensures Grows(s, OnImplementStarted(s))
  {
    hide GatesMissing, WorkGrows;
    ExtendGrows(s.work, [], [], []);
  }

  lemma VerdictGrows(s: ShipState, broaderRisk: bool)
    ensures Grows(s, OnChangesRequested(s, broaderRisk)) && Grows(s, OnApproved(s))
  {
    hide Evidenced, WorkGrows;
    ExtendGrows(s.work, [], [], []);
  }

  lemma FinalizationGrows(s: ShipState, f: Finalization)
    ensures Grows(s, OnFinalization(s, f))
  {
    hide ReadyToFinalize, PassingFinalization, WorkGrows;
    ExtendGrows(s.work, [], [], []);
  }

  /** Evidence, failed checks, attempts and confirmations are never taken back, and outside debug no event lowers `reviewerRequired`. */
  lemma StepGrows(s: ShipState, e: Event)
    ensures Grows(s, Step(s, e))
  {
    hide Grows, OnCoderCompleted, OnFocusedFix, OnEvidenceCollected, OnDiagnose, OnSelectNextLane, OnSelectReportOnly,
      OnImplementStarted, OnChangesRequested, OnApproved, OnFinalization;
    StopsGrow(s);
    match e
    case Diagnose(text, recommended, affected) => DiagnoseGrows(s, text, recommended, affected);
    case SelectNextLane(lane, kind) => SelectGrows(s, lane, kind);
    case SelectReportOnly => SelectGrows(s, ReportOnly, None);
    case ImplementStarted => ImplementGrows(s);
    case CoderCompleted(files, refs, checks) => CoderGrows(s, files, refs, checks);
    case EvidenceCollected(refs, checks) => EvidenceGrows(s, refs, checks);
    case FocusedFixCompleted(files, refs, checks) => FixGrows(s, files, refs, checks);
    case ReviewerChangesRequested(broaderRisk) => VerdictGrows(s, broaderRisk);
    case ReviewerApproved => VerdictGrows(s, false);
    case FinalizationRecorded(f) => FinalizationGrows(s, f);
    case _ =>
  }

  lemma StopsGrow(s: ShipState)
    ensures forall stop, next :: Grows(s, StopAt(s, stop, next))
    ensures Grows(s, s)
  {
  }

  lemma {:induction false} RunGrows(s: ShipState, events: seq<Event>)
    ensures Grows(s, Run(s, events))
  {
    if events != [] {
      RunGrows(s, events[..|events| - 1]);
      StepGrows(Run(s, events[..|events| - 1]), events[|events| - 1]);
      hide Step;
    }
  }

  /** Running on from where a run ended. */
  lemma {:induction false} RunSplits(s: ShipState, a: seq<Event>, b: seq<Event>)
    ensures Run(s, a + b) == Run(Run(s, a), b)
  {
    hide Step;
    if b == [] {
      assert a + b == a;
    } else {
      assert (a + b)[..|a + b| - 1] == a + b[..|b| - 1];
      RunSplits(s, a, b[..|b| - 1]);
    }
  }

  // ---------- Which states can still be delivered ----------

  /** The states from which no events lead to delivery. */
  predicate Dead(s: ShipState) {
    || s.lane.OtherLane?
    || GatesMissing(s)
    || (IsTextOnly(s) && TouchesCode(s.work))
    || (s.lane != Debug && s.reviewerRequired && HasCheck(s.work.checks, Failed))
  }

  lemma TouchesCodeStays(s: ShipState, t: ShipState)
    requires Grows(s, t) && TouchesCode(s.work)
    ensures TouchesCode(t.work)
  {
    hide CodeLooking, Blank, RefPath;
  }

  lemma DeadStaysDead(s: ShipState, events: seq<Event>)
    requires Dead(s)
    ensures Dead(Run(s, events))
  {
    RunGrows(s, events);
    var t := Run(s, events);
    if s.lane.OtherLane? {
    } else if IsTextOnly(s) && TouchesCode(s.work) {
      TouchesCodeStays(s, t);
    } else if !GatesMissing(s) {
      var c :| c in s.work.checks && c.outcome == Failed;
      assert c in t.work.checks;
    }
    hide Run, TouchesCode;
  }

  lemma DeadCannotFinalize(s: ShipState)
    requires Dead(s) && !s.lane.OtherLane?
    ensures !ReadyToFinalize(s)
  {
    hide TouchesCode, HasText, HasCheck, Diagnosed;
  }

  ghost predicate Delivers(s: ShipState, f: Finalization) {
    Step(s, FinalizationRecorded(f)).at.stage.DeliveryComplete?
  }

  ghost predicate CanBeDelivered(s: ShipState) {
    exists events, f :: Delivers(Run(s, events), f)
  }

  const GOOD_FINALIZATION := Finalization("s", Some("ok"), "q", "a")

  lemma GoodFinalizationPasses()
    ensures PassingFinalization(GOOD_FINALIZATION)
  {
    assert Trim("s") == "s" && Trim("q") == "q" && Trim("a") == "a";
    assert TrimStart("ok") == "ok" && TrimEnd("ok") == "ok";
    assert ToLower("ok") == "ok";
  }

  const NOTE := "n"
  const CLEAN_WORK := CoderCompleted([NOTE], [NOTE], [Check(NOTE, Passed)])

  lemma NoteIsText()
    ensures !Blank(NOTE) && !CodeLooking(NOTE) && !CodeLooking(RefPath(NOTE))
  {
    OneLetterIsNotCode(NOTE);
    assert StripAnchor(NOTE) == NOTE by {
      assert NOTE == ['n'] && StripAnchor([]) == [];
    }
    assert Trim(NOTE) == NOTE;
  }

  lemma CleanWorkCounts(w: Work)
    ensures var v := Extend(w, [NOTE], [NOTE], [Check(NOTE, Passed)]);
            && HasText(v.changedFiles) && HasText(v.evidenceRefs) && HasCheck(v.checks, Passed)
            && (HasCheck(v.checks, Failed) ==> HasCheck(w.checks, Failed))
            && (TouchesCode(v) ==> TouchesCode(w))
  {
    NoteIsText();
    AppendUniqueMembers(w.changedFiles, [NOTE]);
    AppendUniqueMembers(w.evidenceRefs, [NOTE]);
    hide AppendUnique, CodeLooking, RefPath, Blank;
    var v := Extend(w, [NOTE], [NOTE], [Check(NOTE, Passed)]);
    assert NOTE in v.changedFiles && NOTE in v.evidenceRefs;
    assert v.checks[|w.checks|] == Check(NOTE, Passed);
  }

  lemma NoteHidesNothing()
    ensures !HasCheck([Check(NOTE, Passed)], Failed)
    ensures !exists f :: f in [NOTE] && CodeLooking(f)
  {
    NoteIsText();
  }

  lemma CleanWorkIsTaken(s: ShipState)
    requires (s.lane == FullSprint || s.lane == Hotfix) && !Dead(s)
    ensures var t := Step(s, CLEAN_WORK);
            && t.lane == s.lane && t.hotfixKind == s.hotfixKind && t.gatesConfirmed == s.gatesConfirmed
            && t.work == Extend(s.work, [NOTE], [NOTE], [Check(NOTE, Passed)]) && t.reviewerRequired == s.reviewerRequired
  {
    CleanWorkCounts(s.work);
    NoteHidesNothing();
    hide HasText, HasCheck, TouchesCode, Extend, CodeLooking;
  }

  lemma ApprovalMakesReady(s: ShipState)
    requires (s.lane == FullSprint || s.lane == Hotfix) && !GatesMissing(s)
    requires (IsTextOnly(s) ==> TextReady(s.work)) && (s.reviewerRequired ==> Evidenced(s.work))
    ensures ReadyToFinalize(Step(s, ReviewerApproved))
  {
    hide TextReady, Evidenced;
  }

  lemma CleanWorkThenApproval(s: ShipState)
    requires (s.lane == FullSprint || s.lane == Hotfix) && !Dead(s)
    ensures ReadyToFinalize(Run(s, [CLEAN_WORK, ReviewerApproved])) && !Run(s, [CLEAN_WORK, ReviewerApproved]).lane.OtherLane?
  {
    CleanWorkIsTaken(s);
    CleanWorkCounts(s.work);
    ApprovalMakesReady(Step(s, CLEAN_WORK)) by {
      hide Step, HasText, HasCheck, TouchesCode, Extend;
    }
    StepGrows(Step(s, CLEAN_WORK), ReviewerApproved);
    TwoSteps(s, CLEAN_WORK, ReviewerApproved);
    hide Step, ReadyToFinalize, WorkGrows, Dead;
  }

  lemma TwoSteps(s: ShipState, a: Event, b: Event)
    ensures Run(s, [a, b]) == Step(Step(s, a), b)
  {
    hide Step;
    assert [a][..0] == [];
    assert Run(s, [a]) == Step(s, a);
    assert [a, b][..1] == [a];
  }

  const REPORT := Diagnose(NOTE, ReportOnly, [])

  /** A debug run can always be closed: a diagnosis, the report-only choice and an approval. */
  lemma ReportThenApproval(s: ShipState)
    requires s.lane == Debug
    ensures var t := Run(s, [REPORT, SelectReportOnly, ReviewerApproved]); ReadyToFinalize(t) && t.lane == Debug
  {
    ReportIsTaken(s);
    ChoiceIsTaken(Step(s, REPORT));
    hide Step, ReadyToFinalize;
    assert [REPORT, SelectReportOnly, ReviewerApproved][..2] == [REPORT, SelectReportOnly];
    TwoSteps(s, REPORT, SelectReportOnly);
  }

  lemma ReportIsTaken(s: ShipState)
    requires s.lane == Debug
    ensures var t := Step(s, REPORT); t.lane == Debug && Diagnosed(t)
  {
    NoteIsText();
    TrimIdempotent(NOTE);
    hide Extend, Trim;
  }

  lemma ChoiceIsTaken(s: ShipState)
    requires s.lane == Debug && Diagnosed(s)
    ensures var t := Step(Step(s, SelectReportOnly), ReviewerApproved); t.lane == Debug && ReadyToFinalize(t)
  {
    hide Blank, Evidenced;
  }

  lemma LiveStatesDeliver(s: ShipState)
    requires !Dead(s)
    ensures CanBeDelivered(s)
  {
    hide Run, Step, ReadyToFinalize, PassingFinalization, Delivers, GatesMissing, TouchesCode, HasCheck;
    GoodFinalizationPasses();
    if s.lane == Debug {
      ReportThenApproval(s);
      ReadyDelivers(Run(s, [REPORT, SelectReportOnly, ReviewerApproved]), GOOD_FINALIZATION);
    } else {
      CleanWorkThenApproval(s);
      ReadyDelivers(Run(s, [CLEAN_WORK, ReviewerApproved]), GOOD_FINALIZATION);
    }
  }

  /**
   * Exactly the states that are not dead can be delivered. In particular neither `blocked` nor an
   * exhausted retry budget is final, while one failed check recorded on a reviewer-required run is.
   */
  lemma CanBeDeliveredIff(s: ShipState)
    ensures CanBeDelivered(s) <==> !Dead(s)
  {
    hide Dead, Run, Delivers;
    if Dead(s) {
      forall events, f
        ensures !Delivers(Run(s, events), f)
      {
        DeadStaysDead(s, events);
        DeadNeverDelivers(Run(s, events), f);
      }
    } else {
      LiveStatesDeliver(s);
    }
  }

  lemma DeadNeverDelivers(s: ShipState, f: Finalization)
    requires Dead(s)
    ensures !Delivers(s, f)
  {
    if !s.lane.OtherLane? {
      DeadCannotFinalize(s);
    }
    hide ReadyToFinalize, PassingFinalization;
  }

  lemma ReadyDelivers(s: ShipState, f: Finalization)
    requires !s.lane.OtherLane? && ReadyToFinalize(s) && PassingFinalization(f)
    ensures Delivers(s, f)
  {
    hide ReadyToFinalize, PassingFinalization;
  }
}
