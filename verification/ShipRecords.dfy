/** What a run has on record, against what its events reported. */
module ShipRecords {
  import opened Js
  import opened CodePaths
  import opened ShipEngine
  import opened ShipRuns
  import opened ShipHistory

  // ---------- What an event reports where it is taken ----------

  /** Implementation work counts on a hotfix, and on a full sprint whose gates are confirmed. */
  ghost predicate TakesWork(s: ShipState) {
    s.lane == Hotfix || (s.lane == FullSprint && s.gatesConfirmed)
  }

  ghost predicate TakesDiagnosis(s: ShipState, e: Event) {
    e.Diagnose? && s.lane == Debug && e.recommended in {ToHotfix, ToFullSprint, ReportOnly} && !Blank(e.text)
  }

  ghost predicate TakesEvidence(s: ShipState, e: Event) {
    e.EvidenceCollected? && s.lane in {FullSprint, Hotfix, Debug} && (e.checks != [] || exists r :: r in e.refs && !Blank(r))
  }

  ghost predicate ReportsFile(s: ShipState, e: Event, file: string) {
    (e.CoderCompleted? || e.FocusedFixCompleted?) && TakesWork(s) && file in e.files && !Blank(file)
  }

  ghost predicate ReportsRef(s: ShipState, e: Event, ref: string) {
    && !Blank(ref)
    && (|| ((e.CoderCompleted? || e.FocusedFixCompleted?) && TakesWork(s) && ref in e.refs)
        || (TakesEvidence(s, e) && ref in e.refs)
        || (TakesDiagnosis(s, e) && ref in e.affected))
  }

  ghost predicate ReportsCheck(s: ShipState, e: Event, check: Check) {
    || ((e.CoderCompleted? || e.FocusedFixCompleted?) && TakesWork(s) && check in e.checks)
    || (TakesEvidence(s, e) && check in e.checks)
  }

  // ---------- One event ----------

  /** The lists after one event, against the three tests of what it reports. */
  ghost predicate Records(s: ShipState, e: Event, t: ShipState) {
    && (forall file :: file in t.work.changedFiles <==> file in s.work.changedFiles || ReportsFile(s, e, file))
    && (forall ref :: ref in t.work.evidenceRefs <==> ref in s.work.evidenceRefs || ReportsRef(s, e, ref))
    && (forall check :: check in t.work.checks <==> check in s.work.checks || ReportsCheck(s, e, check))
  }

  lemma ExtendedMembers(w: Work, files: seq<string>, refs: seq<string>, checks: seq<Check>)
    ensures var v := Extend(w, files, refs, checks);
            && (forall x :: x in v.changedFiles <==> x in w.changedFiles || (x in files && !Blank(x)))
            && (forall x :: x in v.evidenceRefs <==> x in w.evidenceRefs || (x in refs && !Blank(x)))
            && (forall c :: c in v.checks <==> c in w.checks || c in checks)
  {
    AppendUniqueMembers(w.changedFiles, files);
    AppendUniqueMembers(w.evidenceRefs, refs);
    hide Blank, AppendUnique;
  }

  lemma WorkTaken(s: ShipState, files: seq<string>, refs: seq<string>, checks: seq<Check>)
    requires !s.lane.OtherLane?
    ensures var w := if TakesWork(s) then Extend(s.work, files, refs, checks) else s.work;
            OnCoderCompleted(s, files, refs, checks).work == w && OnFocusedFix(s, files, refs, checks).work == w
  {
    hide Extend, HasCheck, TextReady, CodeLooking;
  }

  lemma WorkRecords(s: ShipState, e: Event)
    requires !s.lane.OtherLane? && (e.CoderCompleted? || e.FocusedFixCompleted?)
    ensures Records(s, e, Step(s, e))
  {
    WorkTaken(s, e.files, e.refs, e.checks);
    ExtendedMembers(s.work, e.files, e.refs, e.checks);
    hide Extend, OnCoderCompleted, OnFocusedFix, Blank, TakesWork;
  }

  lemma EvidenceTaken(s: ShipState, refs: seq<string>, checks: seq<Check>)
    requires !s.lane.OtherLane?
    ensures OnEvidenceCollected(s, refs, checks).work
            == if TakesEvidence(s, EvidenceCollected(refs, checks)) then Extend(s.work, [], refs, checks) else s.work
  {
    hide Extend, TextReady, Blank, IsTextOnly;
  }

  lemma EvidenceRecords(s: ShipState, e: Event)
    requires !s.lane.OtherLane? && e.EvidenceCollected?
    ensures Records(s, e, Step(s, e))
  {
    EvidenceTaken(s, e.refs, e.checks);
    ExtendedMembers(s.work, [], e.refs, e.checks);
    hide Extend, OnEvidenceCollected, Blank, TakesEvidence;
  }

  lemma DiagnosisTaken(s: ShipState, text: string, recommended: NextLane, affected: seq<string>)
    ensures OnDiagnose(s, text, recommended, affected).work
            == if TakesDiagnosis(s, Diagnose(text, recommended, affected)) then Extend(s.work, [], affected, []) else s.work
  {
    hide Extend, Blank, Trim;
  }

  lemma DiagnosisRecords(s: ShipState, e: Event)
    requires !s.lane.OtherLane? && e.Diagnose?
    ensures Records(s, e, Step(s, e))
  {
    DiagnosisTaken(s, e.text, e.recommended, e.affected);
    ExtendedMembers(s.work, [], e.affected, []);
    hide Extend, OnDiagnose, Blank, TakesDiagnosis;
  }

  lemma OthersRecordNothing(s: ShipState, e: Event)
    requires s.lane.OtherLane? || !(e.CoderCompleted? || e.FocusedFixCompleted? || e.EvidenceCollected? || e.Diagnose?)
    ensures Records(s, e, Step(s, e))
  {
    hide Diagnosed, DefaultReviewerRequired, GatesMissing, Evidenced, ReadyToFinalize, PassingFinalization, Blank;
  }

  lemma StepRecords(s: ShipState, e: Event)
    ensures Records(s, e, Step(s, e))
  {
    hide Step, Records;
    if !s.lane.OtherLane? && (e.CoderCompleted? || e.FocusedFixCompleted?) {
      WorkRecords(s, e);
    } else if !s.lane.OtherLane? && e.EvidenceCollected? {
      EvidenceRecords(s, e);
    } else if !s.lane.OtherLane? && e.Diagnose? {
      DiagnosisRecords(s, e);
    } else {
      OthersRecordNothing(s, e);
    }
  }

  // ---------- Whole runs ----------

  ghost predicate FileReportedAt(s: ShipState, events: seq<Event>, k: int, file: string) {
    0 <= k < |events| && ReportsFile(Run(s, events[..k]), events[k], file)
  }

  ghost predicate RefReportedAt(s: ShipState, events: seq<Event>, k: int, ref: string) {
    0 <= k < |events| && ReportsRef(Run(s, events[..k]), events[k], ref)
  }

  ghost predicate CheckReportedAt(s: ShipState, events: seq<Event>, k: int, check: Check) {
    0 <= k < |events| && ReportsCheck(Run(s, events[..k]), events[k], check)
  }

  lemma {:induction false} FilesAreThoseReported(s: ShipState, events: seq<Event>, file: string)
    ensures file in Run(s, events).work.changedFiles <==> file in s.work.changedFiles || exists k :: FileReportedAt(s, events, k, file)
  {
    hide Step, ReportsFile;
    if events == [] {
    } else {
      var n := |events| - 1;
      FilesAreThoseReported(s, events[..n], file);
      StepRecords(Run(s, events[..n]), events[n]);
      if k :| FileReportedAt(s, events[..n], k, file) {
        assert events[..n][..k] == events[..k];
        assert FileReportedAt(s, events, k, file);
      }
      if k :| FileReportedAt(s, events, k, file) && k < n {
        assert events[..n][..k] == events[..k];
        assert FileReportedAt(s, events[..n], k, file);
      }
      if ReportsFile(Run(s, events[..n]), events[n], file) {
        assert FileReportedAt(s, events, n, file);
      }
    }
  }

  lemma {:induction false} RefsAreThoseReported(s: ShipState, events: seq<Event>, ref: string)
    ensures ref in Run(s, events).work.evidenceRefs <==> ref in s.work.evidenceRefs || exists k :: RefReportedAt(s, events, k, ref)
  {
    hide Step, ReportsRef;
    if events == [] {
    } else {
      var n := |events| - 1;
      RefsAreThoseReported(s, events[..n], ref);
      StepRecords(Run(s, events[..n]), events[n]);
      if k :| RefReportedAt(s, events[..n], k, ref) {
        assert events[..n][..k] == events[..k];
        assert RefReportedAt(s, events, k, ref);
      }
      if k :| RefReportedAt(s, events, k, ref) && k < n {
        assert events[..n][..k] == events[..k];
        assert RefReportedAt(s, events[..n], k, ref);
      }
      if ReportsRef(Run(s, events[..n]), events[n], ref) {
        assert RefReportedAt(s, events, n, ref);
      }
    }
  }

  lemma {:induction false} ChecksAreThoseReported(s: ShipState, events: seq<Event>, check: Check)
    ensures check in Run(s, events).work.checks <==> check in s.work.checks || exists k :: CheckReportedAt(s, events, k, check)
  {
    hide Step, ReportsCheck;
    if events == [] {
    } else {
      var n := |events| - 1;
      ChecksAreThoseReported(s, events[..n], check);
      StepRecords(Run(s, events[..n]), events[n]);
      if k :| CheckReportedAt(s, events[..n], k, check) {
        assert events[..n][..k] == events[..k];
        assert CheckReportedAt(s, events, k, check);
      }
      if k :| CheckReportedAt(s, events, k, check) && k < n {
        assert events[..n][..k] == events[..k];
        assert CheckReportedAt(s, events[..n], k, check);
      }
      if ReportsCheck(Run(s, events[..n]), events[n], check) {
        assert CheckReportedAt(s, events, n, check);
      }
    }
  }

  /**
   * Over any run from any state, the durable lists hold what they held and what the taken events reported, and nothing else:
   * work that failed a check or overran the budget is on record too, refused work is not.
   */
  lemma RunRecords(s: ShipState, events: seq<Event>)
    ensures forall x :: x in Run(s, events).work.changedFiles <==> x in s.work.changedFiles || exists k :: FileReportedAt(s, events, k, x)
    ensures forall x :: x in Run(s, events).work.evidenceRefs <==> x in s.work.evidenceRefs || exists k :: RefReportedAt(s, events, k, x)
    ensures forall c :: c in Run(s, events).work.checks <==> c in s.work.checks || exists k :: CheckReportedAt(s, events, k, c)
  {
    hide *;
    forall x: string
      ensures x in Run(s, events).work.changedFiles <==> x in s.work.changedFiles || exists k :: FileReportedAt(s, events, k, x)
      ensures x in Run(s, events).work.evidenceRefs <==> x in s.work.evidenceRefs || exists k :: RefReportedAt(s, events, k, x)
    {
      FilesAreThoseReported(s, events, x);
      RefsAreThoseReported(s, events, x);
    }
    forall c: Check
      ensures c in Run(s, events).work.checks <==> c in s.work.checks || exists k :: CheckReportedAt(s, events, k, c)
    {
      ChecksAreThoseReported(s, events, c);
    }
  }

  // ---------- What delivered runs reported ----------

  lemma DeliveredWorkIsComplete(i: StartInput, events: seq<Event>)
    requires StartAccepted(i) && Run(Initial(i), events).at.stage.DeliveryComplete?
    ensures var t := Run(Initial(i), events);
            && (t.lane != Debug ==> HasText(t.work.changedFiles) && HasText(t.work.evidenceRefs) && HasCheck(t.work.checks, Passed))
            && (IsTextOnly(t) ==> !TouchesCode(t.work))
            && (t.lane != Debug && t.reviewerRequired ==> !HasCheck(t.work.checks, Failed))
            && (t.lane != Debug && !IsTextOnly(t) ==> t.reviewerRequired)
  {
    RunSound(Initial(i), events);
    hide Run, PassingFinalization, TouchesCode, Budget, HasText, HasCheck, GatesMissing, Diagnosed;
  }

  lemma ReportedFilesAreKept(s: ShipState, events: seq<Event>, k: nat, file: string)
    requires k < |events| && ReportsFile(Run(s, events[..k]), events[k], file)
    ensures file in Run(s, events).work.changedFiles
  {
    FilesAreThoseReported(s, events, file);
    hide Run, ReportsFile;
    assert FileReportedAt(s, events, k, file);
  }

  lemma ReportedRefsAreKept(s: ShipState, events: seq<Event>, k: nat, ref: string)
    requires k < |events| && ReportsRef(Run(s, events[..k]), events[k], ref)
    ensures ref in Run(s, events).work.evidenceRefs && !Blank(ref)
  {
    RefsAreThoseReported(s, events, ref);
    ReportedRefsAreText(Run(s, events[..k]), events[k], ref);
    hide Run, ReportsRef, Blank;
    assert RefReportedAt(s, events, k, ref);
  }

  /** A created text-only run that is delivered, approved or not, never took an event that names code. */
  lemma DeliveredTextRunsNamedNoCode(i: StartInput, events: seq<Event>, k: nat)
    requires StartAccepted(i) && k < |events|
    requires var t := Run(Initial(i), events); t.at.stage.DeliveryComplete? && t.lane == Hotfix && t.hotfixKind == Some(TextOnly)
    ensures var s := Run(Initial(i), events[..k]);
            && (forall file :: ReportsFile(s, events[k], file) ==> !CodeLooking(file))
            && (forall ref :: ReportsRef(s, events[k], ref) ==> !CodeLooking(RefPath(ref)))
  {
    DeliveredWorkIsComplete(i, events);
    hide Run, ReportsFile, ReportsRef, CodeLooking, RefPath, Initial, HasText, HasCheck, Blank;
    forall file | ReportsFile(Run(Initial(i), events[..k]), events[k], file)
      ensures !CodeLooking(file)
    {
      ReportedFilesAreKept(Initial(i), events, k, file);
    }
    forall ref | ReportsRef(Run(Initial(i), events[..k]), events[k], ref)
      ensures !CodeLooking(RefPath(ref))
    {
      ReportedRefsAreKept(Initial(i), events, k, ref);
    }
  }

  lemma ReportedRefsAreText(s: ShipState, e: Event, ref: string)
    requires ReportsRef(s, e, ref)
    ensures !Blank(ref)
  {
  }

  /**
   * A created run that is delivered on a lane other than debug: among the events it took some reported a file, some a reference
   * and some a passed check; where a reviewer is required, as on every lane but a text-only hotfix, none reported a failed one.
   */
  lemma DeliveredRunsReportedEvidence(i: StartInput, events: seq<Event>)
    requires StartAccepted(i)
    requires var t := Run(Initial(i), events); t.at.stage.DeliveryComplete? && t.lane != Debug
    ensures exists k, file :: FileReportedAt(Initial(i), events, k, file)
    ensures exists k, ref :: RefReportedAt(Initial(i), events, k, ref)
    ensures exists k, check :: CheckReportedAt(Initial(i), events, k, check) && check.outcome == Passed
    ensures var t := Run(Initial(i), events);
            t.reviewerRequired || t.lane == FullSprint || t.hotfixKind != Some(TextOnly)
            ==> forall k, check :: CheckReportedAt(Initial(i), events, k, check) ==> check.outcome != Failed
  {
    DeliveredWorkIsComplete(i, events);
    RunRecords(Initial(i), events);
    hide Run, Budget, FileReportedAt, RefReportedAt, CheckReportedAt, Blank, TouchesCode;
  }
}
