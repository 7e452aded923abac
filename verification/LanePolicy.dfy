/** The three-lane policy: what a request may be done as, and why not. */
module LanePolicy {
  import opened Js
  import opened CodePaths
  import opened ShipEngine
  import ShipHistory
  import ShipRuns

  /** Why a request is not simply let through. Every code comes with one blocker text. */
  datatype Code =
    | NoScope | ManyFiles | ManyLines | ManyPaths | ArchitectureSurface | UnclearCause | RepeatedArea | BroaderRisk
    | MissingRefs | MissingEvidence | UncertainText
    | NoConfirmation | NoArchitecture | NoImplementationConfirmation
    | NoDiagnosis | NoRecommendation | InvalidNextLane | NoLaneToImplement | ReportOnlySelected
    | RemoteDenied | InvalidLane

  datatype Status = Allow | Block | Promote | ReviewFirst | EvidenceOnly

  /** The class is whatever text the caller gave; only two values count as no classification. */
  datatype TextClass = Docs | PromptTemplate | Typo | OtherText | Uncertain | Unlisted(text: string)

  /** Numbers as `Number(…)` converts them; an absent one is `NaN`. */
  datatype Thresholds = Thresholds(files: JsNumber, lines: JsNumber, paths: JsNumber, repeats: JsNumber)

  datatype Confirmations = Confirmations(prd: bool, sprint: bool, architecture: bool, implementation: bool)

  datatype Size = Size(files: seq<string>, lines: JsNumber, paths: JsNumber, repeats: JsNumber)

  datatype Request = Request(
    lane: Lane, kind: Option<HotfixKind>, thresholds: Thresholds, confirmed: Confirmations,
    scope: string, size: Size, architecture: bool, causeUnclear: bool, broaderRisk: bool,
    textClass: TextClass, refs: seq<string>, evidence: seq<string>,
    diagnosis: string, hypothesis: string, recommended: Option<NextLane>, selected: Option<NextLane>, implements: bool,
    remote: Option<RemoteAction>, remoteAuthorized: bool)

  function Count(n: JsNumber, least: int, absent: int): int {
    match n
    case Finite(x) => Max(least, x.Floor)
    case _ => absent
  }

  // ---------- What raises a code, request by request ----------

  predicate TextRequest(r: Request) {
    r.lane.Hotfix? && r.kind == Some(TextOnly)
  }

  predicate Classified(r: Request) {
    !r.textClass.OtherText? && !r.textClass.Uncertain?
  }

  /** Whether the named files, or the references without their anchors, are code. */
  predicate NamesCode(r: Request) {
    TouchesCode(Work(r.size.files, r.refs, []))
  }

  /** A text request with everything that lets it go without a reviewer. */
  predicate ReviewerFree(r: Request) {
    TextRequest(r) && Classified(r) && HasText(r.refs) && HasText(r.evidence) && !NamesCode(r)
  }

  predicate SprintRaises(r: Request, c: Code) {
    match c
    case NoConfirmation => !(r.confirmed.prd && r.confirmed.sprint)
    case NoArchitecture => !r.confirmed.architecture
    case NoImplementationConfirmation => !r.confirmed.implementation
    case _ => false
  }

  predicate TextRaises(r: Request, c: Code) {
    match c
    case UncertainText => Classified(r) ==> HasText(r.refs) && HasText(r.evidence) && NamesCode(r)
    case MissingRefs => Classified(r) && !HasText(r.refs)
    case MissingEvidence => Classified(r) && !HasText(r.evidence)
    case _ => false
  }

  predicate ScopeRaises(r: Request, c: Code) {
    match c
    case NoScope => Blank(r.scope)
    case ManyFiles => |r.size.files| > Count(r.thresholds.files, 0, 2)
    case ManyLines => Count(r.size.lines, 0, 0) > Count(r.thresholds.lines, 0, 50)
    case ManyPaths => Count(r.size.paths, 0, 0) > Count(r.thresholds.paths, 1, 1)
    case ArchitectureSurface => r.architecture
    case UnclearCause => r.causeUnclear
    case RepeatedArea => Count(r.size.repeats, 0, 0) >= Count(r.thresholds.repeats, 1, 2)
    case BroaderRisk => r.broaderRisk
    case _ => false
  }

  predicate DebugRaises(r: Request, c: Code) {
    match c
    case NoDiagnosis => Blank(r.diagnosis) && Blank(r.hypothesis)
    case NoRecommendation => r.recommended.None?
    case InvalidNextLane => (r.recommended.Some? && r.recommended.value.OtherNext?) || (r.selected.Some? && r.selected.value.OtherNext?)
    case NoLaneToImplement => r.implements && (r.selected.None? || r.selected.value.OtherNext?)
    case ReportOnlySelected => r.implements && r.selected == Some(ReportOnly)
    case _ => false
  }

  predicate LaneRaises(r: Request, c: Code) {
    match r.lane
    case FullSprint => SprintRaises(r, c)
    case Hotfix => ScopeRaises(r, c) || (r.kind == Some(TextOnly) && TextRaises(r, c))
    case Debug => DebugRaises(r, c)
    case OtherLane(_) => c == InvalidLane
  }

  predicate Raised(r: Request, c: Code) {
    LaneRaises(r, c) || (c == RemoteDenied && !r.lane.OtherLane? && r.remote.Some? && !r.remoteAuthorized)
  }

  predicate PromotionTrigger(c: Code) {
    c.NoScope? || c.ManyFiles? || c.ManyLines? || c.ManyPaths? || c.ArchitectureSurface? || c.UnclearCause? || c.RepeatedArea?
    || c.BroaderRisk? || c.UncertainText?
  }

  predicate Untroubled(r: Request) {
    forall c :: !Raised(r, c)
  }

  predicate NeedsReviewer(r: Request) {
    r.lane.FullSprint? || (r.lane.Hotfix? && !ReviewerFree(r))
  }

  /** A blocked request stays below promotion as soon as one of its codes is not a promotion trigger. */
  predicate IsStatus(r: Request, status: Status) {
    match status
    case Promote => !Untroubled(r) && forall c :: Raised(r, c) ==> PromotionTrigger(c)
    case Block => exists c :: Raised(r, c) && !PromotionTrigger(c)
    case ReviewFirst => Untroubled(r) && NeedsReviewer(r)
    case EvidenceOnly => Untroubled(r) && ReviewerFree(r)
    case Allow => Untroubled(r) && r.lane.Debug?
  }

  // ---------- The same on the decision, field by field ----------

  /** A count above its threshold: whole numbers, the threshold at least `least`, and `absent` where none is given. */
  predicate Above(n: JsNumber, threshold: JsNumber, least: int, absent: int) {
    n.Finite? && n.value.Floor > least && n.value.Floor > if threshold.Finite? then threshold.value.Floor else absent
  }

  /** The promotion triggers of a hotfix: the defaults are 2 files, 50 lines, 1 behaviour path and 2 fixes of the same area. */
  ghost predicate ScopeCodes(r: Request, codes: seq<Code>) {
    && (NoScope in codes <==> r.lane == Hotfix && Blank(r.scope))
    && (ManyFiles in codes
        <==> r.lane == Hotfix && |r.size.files| > 0 && |r.size.files| > if r.thresholds.files.Finite? then r.thresholds.files.value.Floor else 2)
    && (ManyLines in codes <==> r.lane == Hotfix && Above(r.size.lines, r.thresholds.lines, 0, 50))
    && (ManyPaths in codes <==> r.lane == Hotfix && Above(r.size.paths, r.thresholds.paths, 1, 1))
    && (ArchitectureSurface in codes <==> r.lane == Hotfix && r.architecture)
    && (UnclearCause in codes <==> r.lane == Hotfix && r.causeUnclear)
    && (RepeatedArea in codes
        <==> r.lane == Hotfix && r.size.repeats.Finite? && r.size.repeats.value.Floor >= 1
             && r.size.repeats.value.Floor >= if r.thresholds.repeats.Finite? then r.thresholds.repeats.value.Floor else 2)
    && (BroaderRisk in codes <==> r.lane == Hotfix && r.broaderRisk)
  }

  ghost predicate SomeText(list: seq<string>) {
    exists x :: x in list && !Blank(x)
  }

  /** A text change is uncertain as long as nobody classified it, and where it names references and evidence but touches code. */
  ghost predicate TextCodes(r: Request, codes: seq<Code>) {
    var text := r.lane == Hotfix && r.kind == Some(TextOnly);
    var classified := r.textClass != OtherText && r.textClass != Uncertain;
    && (MissingRefs in codes <==> text && classified && !SomeText(r.refs))
    && (MissingEvidence in codes <==> text && classified && !SomeText(r.evidence))
    && (UncertainText in codes
        <==> text
             && (!classified
                 || (SomeText(r.refs) && SomeText(r.evidence)
                     && ((exists f :: f in r.size.files && CodeLooking(f)) || exists x :: x in r.refs && !Blank(x) && CodeLooking(RefPath(x))))))
  }

  ghost predicate GateCodes(r: Request, codes: seq<Code>) {
    && (NoConfirmation in codes <==> r.lane == FullSprint && !(r.confirmed.prd && r.confirmed.sprint))
    && (NoArchitecture in codes <==> r.lane == FullSprint && !r.confirmed.architecture)
    && (NoImplementationConfirmation in codes <==> r.lane == FullSprint && !r.confirmed.implementation)
    && (RemoteDenied in codes <==> r.lane in {FullSprint, Hotfix, Debug} && r.remote != None && !r.remoteAuthorized)
    && (InvalidLane in codes <==> r.lane !in {FullSprint, Hotfix, Debug})
  }

  ghost predicate DebugCodes(r: Request, codes: seq<Code>) {
    && (NoDiagnosis in codes <==> r.lane == Debug && Blank(r.diagnosis) && Blank(r.hypothesis))
    && (NoRecommendation in codes <==> r.lane == Debug && r.recommended == None)
    && (InvalidNextLane in codes
        <==> r.lane == Debug && ((r.recommended.Some? && r.recommended.value.OtherNext?) || (r.selected.Some? && r.selected.value.OtherNext?)))
    && (NoLaneToImplement in codes
        <==> r.lane == Debug && r.implements && r.selected != Some(ToHotfix) && r.selected != Some(ToFullSprint) && r.selected != Some(ReportOnly))
    && (ReportOnlySelected in codes <==> r.lane == Debug && r.implements && r.selected == Some(ReportOnly))
  }

  ghost predicate CodesSay(r: Request, codes: seq<Code>) {
    ScopeCodes(r, codes) && TextCodes(r, codes) && GateCodes(r, codes) && DebugCodes(r, codes)
  }

  /** Promoted when every code is one of the nine triggers, blocked when another stands among them; without a code the reviewer flag decides. */
  ghost predicate StatusSays(codes: seq<Code>, reviewer: bool, evidenceOnly: bool, status: Status) {
    var triggers := {NoScope, ManyFiles, ManyLines, ManyPaths, ArchitectureSurface, UnclearCause, RepeatedArea, BroaderRisk, UncertainText};
    && (status == Promote <==> codes != [] && forall c :: c in codes ==> c in triggers)
    && (status == Block <==> exists c :: c in codes && c !in triggers)
    && (status == ReviewFirst <==> codes == [] && reviewer)
    && (status == EvidenceOnly <==> codes == [] && !reviewer && evidenceOnly)
    && (status == Allow <==> codes == [] && !reviewer && !evidenceOnly)
  }

  /** No reviewer for a text change that raises none of its own codes, nor on the debug lane. */
  ghost predicate FlagsSay(r: Request, codes: seq<Code>, reviewer: bool, evidenceOnly: bool) {
    && (evidenceOnly
        <==> r.lane == Hotfix && r.kind == Some(TextOnly) && MissingRefs !in codes && MissingEvidence !in codes && UncertainText !in codes)
    && (reviewer <==> r.lane == FullSprint || (r.lane == Hotfix && !evidenceOnly))
  }

  lemma FlagsAreSaid(r: Request, codes: seq<Code>)
    requires forall c :: c in codes <==> Raised(r, c)
    ensures FlagsSay(r, codes, NeedsReviewer(r), ReviewerFree(r))
  {
    hide HasText, NamesCode, Count, Blank;
  }

  lemma ScopeIsSaid(r: Request, codes: seq<Code>)
    requires forall c :: c in codes <==> Raised(r, c)
    ensures ScopeCodes(r, codes)
  {
    hide Blank, HasText, NamesCode, Classified, TextRequest;
  }

  lemma TextIsSaid(r: Request, codes: seq<Code>)
    requires forall c :: c in codes <==> Raised(r, c)
    ensures TextCodes(r, codes)
  {
    hide Blank, CodeLooking, RefPath, Count;
  }

  lemma GatesAreSaid(r: Request, codes: seq<Code>)
    requires forall c :: c in codes <==> Raised(r, c)
    ensures GateCodes(r, codes)
  {
    hide Blank, HasText, NamesCode, Classified, Count;
  }

  lemma DebugIsSaid(r: Request, codes: seq<Code>)
    requires forall c :: c in codes <==> Raised(r, c)
    ensures DebugCodes(r, codes)
  {
    hide Blank, HasText, NamesCode, Classified, Count;
  }

  lemma StatusIsSaid(r: Request, codes: seq<Code>, status: Status)
    requires IsStatus(r, status) && forall c :: c in codes <==> Raised(r, c)
    ensures StatusSays(codes, NeedsReviewer(r), ReviewerFree(r), status)
  {
    hide Raised, HasText, NamesCode, Classified;
    assert codes != [] ==> codes[0] in codes;
  }

  // ---------- The decision, built step by step ----------

  class Decision {
    var status: Status
    var gatesRequired: bool
    var reviewerRequired: bool
    var evidenceOnly: bool
    var recommended: Option<NextLane>
    var codes: seq<Code>

    constructor ()
      ensures status == Allow && !gatesRequired && !reviewerRequired && !evidenceOnly && recommended == None && codes == []
    {
      status, gatesRequired, reviewerRequired, evidenceOnly, recommended, codes := Allow, false, false, false, None, [];
    }

    /** A code goes in with its blocker. */
    method Push(c: Code)
      modifies this`codes
      ensures forall x :: x in codes <==> x in old(codes) || x == c
    {
      codes := codes + [c];
    }

    method FullSprintLane(r: Request)
      requires r.lane.FullSprint? && codes == []
      modifies this
      ensures gatesRequired && reviewerRequired && !evidenceOnly && recommended == old(recommended)
      ensures forall c :: c in codes <==> SprintRaises(r, c)
    {
      gatesRequired, reviewerRequired, evidenceOnly := true, true, false;
      if !r.confirmed.prd || !r.confirmed.sprint {
        Push(NoConfirmation);
      }
      if !r.confirmed.architecture {
        Push(NoArchitecture);
      }
      if !r.confirmed.implementation {
        Push(NoImplementationConfirmation);
      }
    }

    method RequireReviewer(c: Code)
      modifies this
      ensures reviewerRequired && !evidenceOnly && forall x :: x in codes <==> x in old(codes) || x == c
      ensures gatesRequired == old(gatesRequired) && recommended == old(recommended)
    {
      reviewerRequired, evidenceOnly := true, false;
      Push(c);
    }

    method TextEvidence(r: Request)
      requires TextRequest(r) && codes == [] && !reviewerRequired && !evidenceOnly
      modifies this
      ensures gatesRequired == old(gatesRequired) && recommended == old(recommended)
      ensures reviewerRequired == !ReviewerFree(r) && evidenceOnly == ReviewerFree(r)
      ensures forall c :: c in codes <==> TextRaises(r, c)
    {
      if r.textClass.OtherText? || r.textClass.Uncertain? {
        RequireReviewer(UncertainText);
        return;
      }
      var refs := Texts(r.refs);
      var evidence := Texts(r.evidence);
      if |refs| == 0 {
        RequireReviewer(MissingRefs);
      }
      if |evidence| == 0 {
        RequireReviewer(MissingEvidence);
      }
      if |refs| == 0 || |evidence| == 0 {
        return;
      }
      var offending := Offending(r.size.files, refs);
      CleanPaths(r.size.files, r.refs);
      if |offending| > 0 {
        RequireReviewer(UncertainText);
        return;
      }
      evidenceOnly, reviewerRequired := true, false;
    }

    method HotfixScope(r: Request)
      requires r.lane.Hotfix?
      modifies this`codes
      ensures forall c :: c in codes <==> (c in old(codes) || ScopeRaises(r, c))
    {
      hide Blank, Count, TextRequest, Classified, HasText, NamesCode;
      if Blank(r.scope) {
        Push(NoScope);
      }
      if |r.size.files| > Count(r.thresholds.files, 0, 2) {
        Push(ManyFiles);
      }
      if Count(r.size.lines, 0, 0) > Count(r.thresholds.lines, 0, 50) {
        Push(ManyLines);
      }
      if Count(r.size.paths, 0, 0) > Count(r.thresholds.paths, 1, 1) {
        Push(ManyPaths);
      }
      if r.architecture {
        Push(ArchitectureSurface);
      }
      if r.causeUnclear {
        Push(UnclearCause);
      }
      if Count(r.size.repeats, 0, 0) >= Count(r.thresholds.repeats, 1, 2) {
        Push(RepeatedArea);
      }
      if r.broaderRisk {
        Push(BroaderRisk);
      }
    }

    method HotfixLane(r: Request)
      requires r.lane.Hotfix? && codes == []
      modifies this
      ensures gatesRequired == old(gatesRequired) && recommended == old(recommended)
      ensures reviewerRequired == !ReviewerFree(r) && evidenceOnly == ReviewerFree(r)
      ensures forall c :: c in codes <==> LaneRaises(r, c)
    {
      hide TextRaises, ScopeRaises, HasText, NamesCode, Classified;
      evidenceOnly := false;
      if r.kind == Some(TextOnly) {
        reviewerRequired := false;
        TextEvidence(r);
      } else {
        reviewerRequired := true;
      }
      HotfixScope(r);
    }

    method DebugLane(r: Request)
      requires r.lane.Debug? && codes == [] && recommended == None
      modifies this
      ensures !gatesRequired && !reviewerRequired && !evidenceOnly
      ensures recommended == if KnownNext(r.recommended) then r.recommended else None
      ensures forall c :: c in codes <==> DebugRaises(r, c)
    {
      hide Blank, TextRequest, Classified, HasText, NamesCode;
      gatesRequired, reviewerRequired, evidenceOnly := false, false, false;
      if Blank(r.diagnosis) && Blank(r.hypothesis) {
        Push(NoDiagnosis);
      }
      if r.recommended.None? {
        Push(NoRecommendation);
      } else if !r.recommended.value.OtherNext? {
        recommended := r.recommended;
      } else {
        Push(InvalidNextLane);
      }
      if r.selected.Some? && r.selected.value.OtherNext? {
        Push(InvalidNextLane);
      }
      if r.implements {
        ImplementationAttempt(r.selected);
      }
    }

    /** The debug lane implements nothing without a selected lane that allows it. */
    method ImplementationAttempt(selected: Option<NextLane>)
      modifies this`codes
      ensures forall c :: c in codes
                <==> (c in old(codes) || (c.NoLaneToImplement? && (selected.None? || selected.value.OtherNext?))
                      || (c.ReportOnlySelected? && selected == Some(ReportOnly)))
    {
      if selected.None? {
        Push(NoLaneToImplement);
      } else if selected.value.ReportOnly? {
        Push(ReportOnlySelected);
      } else if !selected.value.ToHotfix? && !selected.value.ToFullSprint? {
        Push(NoLaneToImplement);
      }
    }

    method Finalize()
      modifies this`status
      ensures codes == [] ==> status == if reviewerRequired then ReviewFirst else if evidenceOnly then EvidenceOnly else Allow
      ensures codes != [] ==> status == if forall c :: c in codes ==> PromotionTrigger(c) then Promote else Block
    {
      if |codes| > 0 {
        var only := true;
        for i := 0 to |codes|
          invariant only <==> forall c :: c in codes[..i] ==> PromotionTrigger(c)
        {
          only := only && PromotionTrigger(codes[i]);
        }
        assert codes[..|codes|] == codes;
        status := if only then Promote else Block;
      } else if reviewerRequired {
        status := ReviewFirst;
      } else if evidenceOnly {
        status := EvidenceOnly;
      } else {
        status := Allow;
      }
    }
  }

  method Texts(list: seq<string>) returns (texts: seq<string>)
    ensures forall x :: x in texts <==> x in list && !Blank(x)
    ensures texts == [] <==> !HasText(list)
  {
    texts := [];
    for i := 0 to |list|
      invariant forall x :: x in texts <==> x in list[..i] && !Blank(x)
    {
      if !Blank(list[i]) {
        texts := texts + [list[i]];
      }
    }
    assert list[..|list|] == list;
    if texts != [] {
      assert texts[0] in list && !Blank(texts[0]);
    }
  }

  /** The files that are code, then the references whose path is. */
  method Offending(files: seq<string>, refs: seq<string>) returns (paths: seq<string>)
    ensures paths == [] <==> (forall f :: f in files ==> !CodeLooking(f)) && (forall x :: x in refs ==> !CodeLooking(RefPath(x)))
  {
    hide CodeLooking, RefPath;
    paths := [];
    for i := 0 to |files|
      invariant paths == [] <==> forall f :: f in files[..i] ==> !CodeLooking(f)
    {
      if CodeLooking(files[i]) {
        paths := paths + [files[i]];
      }
    }
    assert files[..|files|] == files;
    for i := 0 to |refs|
      invariant paths == [] <==> (forall f :: f in files ==> !CodeLooking(f)) && (forall x :: x in refs[..i] ==> !CodeLooking(RefPath(x)))
    {
      if CodeLooking(RefPath(refs[i])) {
        paths := paths + [RefPath(refs[i])];
      }
    }
    assert refs[..|refs|] == refs;
  }

  lemma CleanPaths(files: seq<string>, refs: seq<string>)
    ensures TouchesCode(Work(files, refs, []))
            <==> !((forall f :: f in files ==> !CodeLooking(f)) && (forall x :: x in refs && !Blank(x) ==> !CodeLooking(RefPath(x))))
  {
    hide CodeLooking, RefPath, Blank;
  }

  /** The status, the reviewer flag and the set of codes are the ones the request itself determines. */
  method EvaluateLanePolicy(r: Request) returns (d: Decision)
    ensures fresh(d)
    ensures forall c :: c in d.codes <==> Raised(r, c)
    ensures IsStatus(r, d.status)
    ensures d.reviewerRequired == NeedsReviewer(r) && d.evidenceOnly == ReviewerFree(r) && d.gatesRequired == r.lane.FullSprint?
    ensures d.recommended == if r.lane.Debug? && KnownNext(r.recommended) then r.recommended else None
    ensures CodesSay(r, d.codes) && FlagsSay(r, d.codes, d.reviewerRequired, d.evidenceOnly)
    ensures StatusSays(d.codes, d.reviewerRequired, d.evidenceOnly, d.status)
  {
    hide SprintRaises, TextRaises, ScopeRaises, DebugRaises, TextRequest, Classified, NamesCode, PromotionTrigger, IsStatus, HasText,
      CodesSay, StatusSays, FlagsSay;
    d := new Decision();
    if r.lane.OtherLane? {
      d.codes, d.status := [InvalidLane], Block;
      UnknownLaneIsBlocked(r);
      CodesAreSaid(r, d.codes, d.status);
      return;
    }
    match r.lane {
      case FullSprint => d.FullSprintLane(r);
      case Hotfix => d.HotfixLane(r);
      case Debug => d.DebugLane(r);
    }
    if r.remote.Some? && !r.remoteAuthorized {
      d.Push(RemoteDenied);
    }
    d.Finalize();
    OnlyHotfixesAreFree(r);
    StatusIsDetermined(r, d.codes, d.status);
    CodesAreSaid(r, d.codes, d.status);
  }

  lemma OnlyHotfixesAreFree(r: Request)
    ensures ReviewerFree(r) ==> r.lane.Hotfix?
  {
    hide Classified, HasText, NamesCode;
  }

  lemma UnknownLaneIsBlocked(r: Request)
    requires r.lane.OtherLane?
    ensures (forall c :: c in [InvalidLane] <==> Raised(r, c)) && IsStatus(r, Block) && !NeedsReviewer(r) && !ReviewerFree(r)
  {
    assert Raised(r, InvalidLane) && !PromotionTrigger(InvalidLane);
  }

  lemma CodesAreSaid(r: Request, codes: seq<Code>, status: Status)
    requires IsStatus(r, status) && forall c :: c in codes <==> Raised(r, c)
    ensures CodesSay(r, codes) && FlagsSay(r, codes, NeedsReviewer(r), ReviewerFree(r))
    ensures StatusSays(codes, NeedsReviewer(r), ReviewerFree(r), status)
  {
    hide Raised, IsStatus, NeedsReviewer, ReviewerFree, StatusSays, FlagsSay, ScopeCodes, TextCodes, GateCodes, DebugCodes;
    ScopeIsSaid(r, codes);
    TextIsSaid(r, codes);
    GatesAreSaid(r, codes);
    DebugIsSaid(r, codes);
    StatusIsSaid(r, codes, status);
    FlagsAreSaid(r, codes);
  }

  lemma StatusIsDetermined(r: Request, codes: seq<Code>, status: Status)
    requires !r.lane.OtherLane? && forall c :: c in codes <==> Raised(r, c)
    requires codes == [] ==> status == if NeedsReviewer(r) then ReviewFirst else if ReviewerFree(r) then EvidenceOnly else Allow
    requires codes != [] ==> status == if forall c :: c in codes ==> PromotionTrigger(c) then Promote else Block
    ensures IsStatus(r, status)
  {
    hide Raised, ReviewerFree, PromotionTrigger;
    if codes != [] {
      assert Raised(r, codes[0]);
    }
  }

  // ---------- What the table says ----------

  lemma OtherLaneIsInvalid(r: Request)
    ensures r.lane.OtherLane? ==> Raised(r, InvalidLane)
  {
  }

  /** A request has one status. */
  lemma StatusIsUnique(r: Request, a: Status, b: Status)
    requires IsStatus(r, a) && IsStatus(r, b)
    ensures a == b
  {
    hide PromotionTrigger, Raised, Classified, NamesCode;
    OtherLaneIsInvalid(r);
  }

  predicate RemoteBlocked(r: Request) {
    r.remote.Some? && !r.remoteAuthorized
  }

  /** Who goes without a reviewer and without a blocker. */
  lemma EvidenceOnlyIff(r: Request)
    ensures IsStatus(r, EvidenceOnly) <==> ReviewerFree(r) && !RemoteBlocked(r) && forall c :: !ScopeRaises(r, c)
  {
    hide ScopeRaises, HasText, NamesCode, Classified;
    if ReviewerFree(r) {
      assert forall c :: !TextRaises(r, c) by {
        FreeRaisesNothing(r);
      }
      assert RemoteBlocked(r) ==> Raised(r, RemoteDenied);
      assert forall c :: ScopeRaises(r, c) ==> Raised(r, c);
    }
  }

  lemma FreeRaisesNothing(r: Request)
    requires ReviewerFree(r)
    ensures forall c :: !TextRaises(r, c)
  {
    hide HasText, NamesCode;
  }

  /** Fewer files never cost a request its clearance. */
  lemma FewerFilesStayCleared(r: Request, files: seq<string>)
    requires IsStatus(r, EvidenceOnly) && |files| <= |r.size.files| && forall f :: f in files ==> f in r.size.files
    ensures IsStatus(r.(size := r.size.(files := files)), EvidenceOnly)
  {
    var q := r.(size := r.size.(files := files));
    EvidenceOnlyIff(r);
    EvidenceOnlyIff(q);
    hide IsStatus, CodeLooking, RefPath, Blank, HasText, Count;
    forall c
      ensures !ScopeRaises(q, c)
    {
      assert !ScopeRaises(r, c);
    }
  }

  /**
   * The policy and the supervisor judge a text-only change alike: on the same files and references, reported with checks none
   * of which failed, the supervisor skips review exactly when both lists name something, a check passed, and the policy sees no code.
   */
  lemma EngineAgreesWithPolicy(r: Request, s: ShipState, checks: seq<Check>)
    requires IsTextOnly(s) && !s.reviewerRequired && s.work == Work([], [], []) && !HasCheck(checks, Failed)
    ensures Step(s, CoderCompleted(r.size.files, r.refs, checks)).at.stage.Finalizing?
            <==> HasText(r.size.files) && HasText(r.refs) && HasCheck(checks, Passed) && !NamesCode(r)
  {
    var next := Extend(s.work, r.size.files, r.refs, checks);
    JoinedIsSame(r.size.files);
    JoinedIsSame(r.refs);
    assert [] + checks == checks;
    SameCode(next, Work(r.size.files, r.refs, []));
    hide CodeLooking, RefPath, Blank, AppendUnique, HasText, HasCheck, TouchesCode;
    FilesAreInWork(r.size.files, r.refs);
  }

  lemma FilesAreInWork(files: seq<string>, refs: seq<string>)
    ensures (exists f :: f in files && CodeLooking(f)) ==> TouchesCode(Work(files, refs, []))
  {
    hide CodeLooking, RefPath;
  }

  lemma JoinedIsSame(items: seq<string>)
    ensures forall x :: x in AppendUnique([], items) <==> x in items && !Blank(x)
    ensures HasText(AppendUnique([], items)) <==> HasText(items)
  {
    ShipRuns.AppendUniqueMembers([], items);
    hide Blank, AppendUnique;
    if HasText(items) {
      var x :| x in items && !Blank(x);
      assert x in AppendUnique([], items);
    }
  }

  lemma SameCode(v: Work, w: Work)
    requires forall x :: x in v.changedFiles <==> x in w.changedFiles && !Blank(x)
    requires forall x :: x in v.evidenceRefs <==> x in w.evidenceRefs && !Blank(x)
    ensures TouchesCode(v) <==> TouchesCode(w)
  {
    hide HasCodeExtension, HasCodeDirectory, RefPath, Blank;
    if exists f :: f in w.changedFiles && CodeLooking(f) {
      var f :| f in w.changedFiles && CodeLooking(f);
      assert f in v.changedFiles;
    }
    if exists x :: x in w.evidenceRefs && !Blank(x) && CodeLooking(RefPath(x)) {
      var x :| x in w.evidenceRefs && !Blank(x) && CodeLooking(RefPath(x));
      assert x in v.evidenceRefs;
    }
  }

  /** A diagnosis, a known recommendation, a selected lane that implements, and no unauthorised remote action. */
  predicate DebugAuthorized(r: Request) {
    (!Blank(r.diagnosis) || !Blank(r.hypothesis)) && KnownNext(r.recommended) && !RemoteBlocked(r)
    && (r.selected == Some(ToHotfix) || r.selected == Some(ToFullSprint))
  }

  /** A debug session may implement exactly with a diagnosis, a known recommendation and a selected lane that implements. */
  lemma DebugMayImplementIff(r: Request)
    requires r.lane.Debug? && r.implements
    ensures IsStatus(r, Allow) <==> DebugAuthorized(r)
  {
    hide Blank;
    assert RemoteBlocked(r) ==> Raised(r, RemoteDenied);
    assert r.recommended.None? ==> Raised(r, NoRecommendation);
    assert r.recommended.Some? && r.recommended.value.OtherNext? ==> Raised(r, InvalidNextLane);
    assert r.selected.None? || r.selected.value.OtherNext? ==> Raised(r, NoLaneToImplement);
    assert r.selected == Some(ReportOnly) ==> Raised(r, ReportOnlySelected);
    assert Blank(r.diagnosis) && Blank(r.hypothesis) ==> Raised(r, NoDiagnosis);
  }

  /**
   * Policy and supervisor give a debug session that wants to implement the same answer exactly when the policy refuses: an
   * authorised request is let through by the one and turned away by the other, at every implementation event.
   */
  lemma EngineIsStricterInDebug(r: Request, s: ShipState, e: Event)
    requires r.lane.Debug? && r.implements && s.lane == Debug && ShipHistory.IsImplementation(e)
    ensures (IsStatus(r, Allow) <==> !Step(s, e).at.stage.Blocked?) <==> !DebugAuthorized(r)
  {
    DebugMayImplementIff(r);
    ShipHistory.DebugRefusesWork(s, e);
    hide IsStatus, Step, Blank;
  }

  // ---------- Through the classification tool ----------

  /** What the tool passes on: no confirmations, default thresholds, and next lanes only when they are known. */
  function FromTool(r: Request): Request {
    r.(confirmed := Confirmations(false, false, false, false), thresholds := Thresholds(NaN, NaN, NaN, NaN),
       recommended := if KnownNext(r.recommended) then r.recommended else None,
       selected := if KnownNext(r.selected) then r.selected else None)
  }

  /** The tool passes no confirmations, so it blocks every full sprint, however confirmed. */
  lemma ToolBlocksFullSprints(r: Request)
    requires r.lane.FullSprint?
    ensures IsStatus(FromTool(r), Block)
    ensures Raised(FromTool(r), NoConfirmation) && Raised(FromTool(r), NoArchitecture) && Raised(FromTool(r), NoImplementationConfirmation)
  {
    var q := FromTool(r);
    assert Raised(q, NoArchitecture) && !PromotionTrigger(NoArchitecture);
  }

  /**
   * What the tool makes of a debug session: it is let through exactly with a diagnosis, a known recommendation, no unauthorised remote action and, if it
   * wants to implement, a selected lane that implements. The policy itself moreover refuses an unknown selected lane; the tool drops it unseen.
   */
  lemma ToolOnDebugIff(r: Request)
    requires r.lane.Debug?
    ensures IsStatus(FromTool(r), Allow)
            <==> (!Blank(r.diagnosis) || !Blank(r.hypothesis)) && KnownNext(r.recommended) && !RemoteBlocked(r)
                 && (r.implements ==> r.selected == Some(ToHotfix) || r.selected == Some(ToFullSprint))
    ensures IsStatus(r, Allow) <==> IsStatus(FromTool(r), Allow) && !(r.selected.Some? && r.selected.value.OtherNext?)
  {
    DebugAllowIff(FromTool(r));
    DebugAllowIff(r);
    hide IsStatus, Blank;
  }

  lemma DebugAllowIff(r: Request)
    requires r.lane.Debug?
    ensures IsStatus(r, Allow)
            <==> (!Blank(r.diagnosis) || !Blank(r.hypothesis)) && KnownNext(r.recommended) && !RemoteBlocked(r)
                 && !(r.selected.Some? && r.selected.value.OtherNext?)
                 && (r.implements ==> r.selected == Some(ToHotfix) || r.selected == Some(ToFullSprint))
  {
    hide Blank;
    assert RemoteBlocked(r) ==> Raised(r, RemoteDenied);
    assert r.recommended.None? ==> Raised(r, NoRecommendation);
    assert r.recommended.Some? && r.recommended.value.OtherNext? ==> Raised(r, InvalidNextLane);
    assert r.selected.Some? && r.selected.value.OtherNext? ==> Raised(r, InvalidNextLane);
    assert r.implements && r.selected.None? ==> Raised(r, NoLaneToImplement);
    assert r.implements && r.selected == Some(ReportOnly) ==> Raised(r, ReportOnlySelected);
    assert Blank(r.diagnosis) && Blank(r.hypothesis) ==> Raised(r, NoDiagnosis);
  }

  /** The text class is not checked against its list: any unlisted word classifies as well as "docs" does. */
  lemma UnlistedClassPasses(r: Request, word: string, status: Status)
    ensures IsStatus(r.(textClass := Unlisted(word)), status) <==> IsStatus(r.(textClass := Docs), status)
  {
    var a, b := r.(textClass := Unlisted(word)), r.(textClass := Docs);
    assert ReviewerFree(a) <==> ReviewerFree(b);
    hide Raised, ReviewerFree, PromotionTrigger;
    forall c
      ensures Raised(a, c) <==> Raised(b, c)
    {
      UnlistedRaisesTheSame(r, word, c);
    }
  }

  lemma UnlistedRaisesTheSame(r: Request, word: string, c: Code)
    ensures Raised(r.(textClass := Unlisted(word)), c) <==> Raised(r.(textClass := Docs), c)
  {
    hide HasText, Blank, Count, TouchesCode;
  }

  predicate Triggered(r: Request) {
    exists c :: PromotionTrigger(c) && Raised(r, c)
  }

  /**
   * When a raised promotion trigger is honoured: exactly when the request asks for no unauthorised remote action and, if it is a classified
   * text change, names references and evidence. Otherwise the request is blocked.
   */
  lemma TriggersAreHonouredIff(r: Request)
    ensures IsStatus(r, Promote)
            <==> Triggered(r) && !RemoteBlocked(r) && (TextRequest(r) && Classified(r) ==> HasText(r.refs) && HasText(r.evidence))
    ensures Triggered(r) && !IsStatus(r, Promote) ==> IsStatus(r, Block)
  {
    OtherLaneIsInvalid(r);
    OnlyHotfixTriggers(r);
    if r.lane.Hotfix? {
      OthersOfHotfix(r);
    }
    hide Raised, HasText, Classified, NamesCode;
  }

  lemma OnlyHotfixTriggers(r: Request)
    ensures Triggered(r) ==> r.lane.Hotfix?
  {
    hide Blank, HasText, NamesCode, Classified;
  }

  /** What keeps a hotfix from being promoted, code by code. */
  lemma OthersOfHotfix(r: Request)
    requires r.lane.Hotfix?
    ensures (exists c :: Raised(r, c) && !PromotionTrigger(c))
            <==> RemoteBlocked(r) || (TextRequest(r) && Classified(r) && !(HasText(r.refs) && HasText(r.evidence)))
  {
    hide Blank, HasText, NamesCode, Classified, Count;
    assert RemoteBlocked(r) ==> Raised(r, RemoteDenied) && !PromotionTrigger(RemoteDenied);
    assert TextRequest(r) && Classified(r) && !HasText(r.refs) ==> Raised(r, MissingRefs) && !PromotionTrigger(MissingRefs);
    assert TextRequest(r) && Classified(r) && !HasText(r.evidence) ==> Raised(r, MissingEvidence) && !PromotionTrigger(MissingEvidence);
  }

  /** A trigger that is not honoured: without concrete references an oversized text change is blocked instead. */
  lemma OversizedWithoutRefsIsBlocked(r: Request)
    requires TextRequest(r) && Classified(r) && !HasText(r.refs) && |r.size.files| > Count(r.thresholds.files, 0, 2)
    ensures Raised(r, ManyFiles) && PromotionTrigger(ManyFiles) && IsStatus(r, Block) && !IsStatus(r, Promote)
  {
    assert Raised(r, MissingRefs) && !PromotionTrigger(MissingRefs);
  }
}
