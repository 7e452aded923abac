/** What appends, marks and imports do to what the queries return, field by field. */
module LedgerMarks {
  import opened Js
  import opened Ledger
  import opened LedgerRuns
  import opened LedgerQueries

  // ---------- The queries ----------

  /** The current-evidence query returns the events of the ledger's run and the kind that are neither superseded nor rejected. */
  lemma CurrentIff(l: Ledger, kind: Kind, e: Event)
    ensures e in FindCurrent(l, kind)
            <==> e in l.events && e.kind == kind && e.runId == l.runId && e.status != Superseded && e.status != Rejected
  {
    FindCurrentIsExact(l, kind, "");
    QualifyingCounts(l.events, l, kind, e);
    assert e in multiset(FindCurrent(l, kind)) <==> e in FindCurrent(l, kind);
    assert e in multiset(l.events) <==> e in l.events;
    hide FindCurrent, Qualifying;
  }

  /** The accepted-evidence query returns those of them that are accepted and no free-form import. */
  lemma AcceptedIff(l: Ledger, kind: Kind, e: Event)
    ensures e in FindAccepted(l, kind)
            <==> e in l.events && e.kind == kind && e.runId == l.runId && e.status == Accepted && !FreeForm(e)
  {
    FindAcceptedIsExact(l, kind, e);
    assert e in multiset(FindAccepted(l, kind)) <==> e in FindAccepted(l, kind);
    assert e in multiset(l.events) <==> e in l.events;
    hide FindAccepted;
  }

  // ---------- Marks ----------

  /**
   * What a mark means to the queries: an event of the run marked accepted is accepted evidence of its kind, one marked recorded is current and
   * not accepted, one marked rejected or superseded is neither, for any kind.
   */
  lemma MarksDecideQueries(l: Ledger, m: Mark, k: nat)
    requires MarkStatus(l, m).Ok? && k < |l.events| && l.events[k].id == Trim(m.id)
    ensures var next := MarkStatus(l, m).value;
            |next.events| == |l.events|
            && var f := next.events[k];
               && (f.runId == l.runId ==> (f in FindAccepted(next, f.kind) <==> m.status == Accepted))
               && (f.runId == l.runId ==> (f in FindCurrent(next, f.kind) <==> m.status == Accepted || m.status == Recorded))
               && (m.status == Rejected || m.status == Superseded ==> forall kind :: f !in FindCurrent(next, kind) && f !in FindAccepted(next, kind))
  {
    MarkChangesExactlyOne(l, m);
    MarkIsAcceptedIff(l, m);
    hide MarkStatus, FindAccepted, FindCurrent, Trim;
    var next := MarkStatus(l, m).value;
    var at :| MarkedAt(l, m, next, at);
    var only :| OnlyWith(l.events, Trim(m.id), only) && !(m.status == Accepted && FreeForm(l.events[only]));
    assert at == k == only;
    var f := next.events[k];
    assert f in next.events;
    forall kind
      ensures f in FindAccepted(next, kind) <==> f.kind == kind && f.runId == l.runId && m.status == Accepted
      ensures f in FindCurrent(next, kind) <==> f.kind == kind && f.runId == l.runId && m.status != Superseded && m.status != Rejected
    {
      AcceptedIff(next, kind, f);
      CurrentIff(next, kind, f);
    }
  }

  // ---------- Appends ----------

  /** The event of an append, field by field. */
  ghost predicate IsAppended(i: AppendInput, now: string, e: Event) {
    && e.kind == i.kind && e.provenance == i.provenance && e.status == i.status && e.warnings == i.warnings
    && e.supersededBy == i.supersededBy && e.payload == i.payload && e.runId == i.runId && e.contextRun == i.contextRun
    && e.recordedAt == Trim(if i.recordedAt.Some? then i.recordedAt.value else now)
    && (i.id.Some? && !Blank(i.id.value) ==> e.id == Trim(i.id.value))
  }

  /** The word a generated id of the kind starts with. */
  predicate StartsIds(word: string, kind: Kind) {
    match kind
    case LegacyImport => word == "legacy_import"
    case AfkReference => word == "afk_reference"
    case QualityAuditBlocker => word == "quality_audit_blocker"
    case FinalizationDecision => word == "finalization_decision"
    case GateDecision => word == "gate_decision"
    case ReviewerEvidence => word == "reviewer_evidence"
    case CoderEvidence => word == "coder_evidence"
  }

  /** Without an id of its own an appended event gets its kind, its run and the next number, or the one after the number given. */
  lemma GeneratedIdIs(l: Ledger, i: AppendInput, now: string)
    requires Append(l, i, now).Ok? && (i.id.None? || Blank(i.id.value))
    ensures var next := Append(l, i, now).value;
            |next.events| == |l.events| + 1
            && exists word :: StartsIds(word, i.kind)
                 && next.events[|l.events|].id
                    == word + ":" + i.runId + ":" + Decimal(1 + if i.number.Some? then i.number.value else CountKind(l.events, i.kind))
  {
    WordStartsIds(i.kind);
    hide Trim, HasId, IsFreeForm, CountKind, Decimal, KindName, StartsIds;
  }

  lemma WordStartsIds(kind: Kind)
    ensures StartsIds(KindName(kind), kind)
  {
  }

  /** An accepted append puts one event behind the others, as it was asked for. */
  lemma AppendAddsOne(l: Ledger, i: AppendInput, now: string)
    requires Append(l, i, now).Ok?
    ensures var next := Append(l, i, now).value;
            && next.runId == l.runId && next.updatedAt == Trim(now)
            && |next.events| == |l.events| + 1 && next.events[..|l.events|] == l.events
            && IsAppended(i, now, next.events[|l.events|])
            && (forall j :: 0 <= j < |l.events| ==> l.events[j].id != next.events[|l.events|].id)
  {
    hide Trim, GeneratedId;
    assert forall j :: 0 <= j < |l.events| ==> l.events[j] in l.events;
  }

  // ---------- Imports ----------

  function RecordInput(l: Ledger, contextRun: string, a: Artifact): AppendInput {
    ImportInput(l, contextRun, LegacyImport, a.warnings, Imported(a.freeFormOnly, a.structured))
  }

  /** An import in two steps: the record first, then the mark that rejects it or the mirrored events. */
  lemma ImportHasTwoSteps(l: Ledger, contextRun: string, a: Artifact, now: string)
    requires Import(l, contextRun, a, now).Ok?
    ensures Append(l, RecordInput(l, contextRun, a), now).Ok?
    ensures var recorded := Append(l, RecordInput(l, contextRun, a), now).value;
            && |recorded.events| == |l.events| + 1
            && Import(l, contextRun, a, now)
               == if a.structured then Mirror(recorded, contextRun, a.mirrors, a.warnings, now)
                  else MarkStatus(recorded, Mark(recorded.events[|l.events|].id, Rejected, now, "", a.warnings))
  {
    hide MarkStatus, Mirror, NewEvent, Trim;
  }

  lemma LastIsMarked(l: Ledger, recorded: Ledger, m: Mark)
    requires |recorded.events| == |l.events| + 1 && recorded.events[..|l.events|] == l.events
    requires MarkStatus(recorded, m).Ok? && Trim(m.id) == recorded.events[|l.events|].id
    ensures var next := MarkStatus(recorded, m).value;
            MarkedAt(recorded, m, next, |l.events|) && next.events[..|l.events|] == l.events
  {
    MarkChangesExactlyOne(recorded, m);
    hide MarkStatus, Trim;
    var next := MarkStatus(recorded, m).value;
    var k :| MarkedAt(recorded, m, next, k);
    assert k == |l.events|;
    assert next.events[..|l.events|] == recorded.events[..|l.events|];
  }

  lemma LastIsRejected(l: Ledger, recorded: Ledger, m: Mark)
    requires |recorded.events| == |l.events| + 1 && recorded.events[..|l.events|] == l.events
    requires m.status == Rejected && MarkStatus(recorded, m).Ok? && Trim(m.id) == recorded.events[|l.events|].id
    ensures var next := MarkStatus(recorded, m).value;
            && |next.events| == |l.events| + 1 && next.events[..|l.events|] == l.events
            && var (e, f) := (recorded.events[|l.events|], next.events[|l.events|]);
               && f.status == Rejected && f.kind == e.kind && f.provenance == e.provenance && f.runId == e.runId && f.payload == e.payload
               && forall kind :: f !in FindCurrent(next, kind) && f !in FindAccepted(next, kind)
  {
    LastIsMarked(l, recorded, m);
    MarksDecideQueries(recorded, m, |l.events|);
    hide MarkStatus, Trim, FindCurrent, FindAccepted;
  }

  /** The record of an artifact without structured content ends rejected, in no query, and nothing else is added. */
  lemma UnstructuredImportIsRejected(l: Ledger, contextRun: string, a: Artifact, now: string)
    requires !a.structured && Import(l, contextRun, a, now).Ok?
    ensures var next := Import(l, contextRun, a, now).value;
            && |next.events| == |l.events| + 1 && next.events[..|l.events|] == l.events
            && var e := next.events[|l.events|];
               && e.status == Rejected && e.kind == LegacyImport && e.provenance == Legacy && e.runId == l.runId
               && e.payload == Imported(a.freeFormOnly, false)
               && forall kind :: e !in FindCurrent(next, kind) && e !in FindAccepted(next, kind)
  {
    var input := RecordInput(l, contextRun, a);
    ImportHasTwoSteps(l, contextRun, a, now);
    AppendAddsOne(l, input, now);
    GeneratedIdIsTrimmed(l, input, now);
    hide Append, MarkStatus, Trim, Import, GeneratedId, FindCurrent, FindAccepted;
    var recorded := Append(l, input, now).value;
    var m := Mark(recorded.events[|l.events|].id, Rejected, now, "", a.warnings);
    LastIsRejected(l, recorded, m);
  }

  lemma RecordIdIsGenerated(l: Ledger, i: AppendInput, now: string)
    requires Append(l, i, now).Ok? && i.id.None? && i.number.None?
    ensures |Append(l, i, now).value.events| == |l.events| + 1
    ensures Append(l, i, now).value.events[|l.events|].id == GeneratedId(i.kind, i.runId, 1 + CountKind(l.events, i.kind))
  {
    hide GeneratedId, CountKind, Trim, Blank, HasId, IsFreeForm;
  }

  lemma GeneratedIdIsTrimmed(l: Ledger, i: AppendInput, now: string)
    requires Append(l, i, now).Ok? && i.id.None? && i.number.None?
    ensures |Append(l, i, now).value.events| == |l.events| + 1
    ensures var id := Append(l, i, now).value.events[|l.events|].id; Trim(id) == id
  {
    hide Append, GeneratedId, CountKind, Trim, KindName, Decimal;
    RecordIdIsGenerated(l, i, now);
    GeneratedIdsAreTrimmed(i.kind, i.runId, 1 + CountKind(l.events, i.kind));
  }

  /** What mirroring adds: for each typed event of the artifact, in order, one recorded legacy event of its kind with its content. */
  ghost predicate IsMirror(e: Event, runId: string, mirror: (Kind, string)) {
    e.kind == mirror.0 && e.payload == Content(mirror.1) && e.status == Recorded && e.provenance == Legacy && e.runId == runId
  }

  ghost predicate AreMirrored(l: Ledger, mirrors: seq<(Kind, string)>, next: Ledger) {
    && next.runId == l.runId && |next.events| == |l.events| + |mirrors| && next.events[..|l.events|] == l.events
    && forall j :: 0 <= j < |mirrors| ==> IsMirror(next.events[|l.events| + j], l.runId, mirrors[j])
  }

  lemma OneMoreMirrored(l: Ledger, mirrors: seq<(Kind, string)>, before: Ledger, next: Ledger)
    requires mirrors != [] && AreMirrored(l, mirrors[..|mirrors| - 1], before)
    requires next.runId == l.runId && |next.events| == |before.events| + 1 && next.events[..|before.events|] == before.events
    requires IsMirror(next.events[|before.events|], l.runId, mirrors[|mirrors| - 1])
    ensures AreMirrored(l, mirrors, next)
  {
    hide IsMirror;
    assert forall j :: 0 <= j < |before.events| ==> next.events[..|before.events|][j] == before.events[j];
    assert next.events[..|l.events|] == l.events;
  }

  lemma {:induction false} MirrorsInOrder(l: Ledger, contextRun: string, mirrors: seq<(Kind, string)>, warnings: seq<string>, now: string)
    requires Mirror(l, contextRun, mirrors, warnings, now).Ok?
    ensures AreMirrored(l, mirrors, Mirror(l, contextRun, mirrors, warnings, now).value)
  {
    hide Append, AreMirrored, Trim;
    if mirrors == [] {
      NothingMirrored(l);
    } else {
      var n := |mirrors| - 1;
      MirrorsInOrder(l, contextRun, mirrors[..n], warnings, now);
      var before := Mirror(l, contextRun, mirrors[..n], warnings, now).value;
      MirroredRun(l, mirrors[..n], before);
      AppendAddsOne(before, ImportInput(before, contextRun, mirrors[n].0, warnings, Content(mirrors[n].1)), now);
      OneMoreMirrored(l, mirrors, before, Mirror(l, contextRun, mirrors, warnings, now).value);
    }
  }

  lemma NothingMirrored(l: Ledger)
    ensures AreMirrored(l, [], l)
  {
  }

  lemma MirroredRun(l: Ledger, mirrors: seq<(Kind, string)>, next: Ledger)
    requires AreMirrored(l, mirrors, next)
    ensures next.runId == l.runId
  {
  }

  lemma RecordThenMirrors(l: Ledger, recorded: Ledger, mirrors: seq<(Kind, string)>, next: Ledger)
    requires |recorded.events| == |l.events| + 1 && recorded.events[..|l.events|] == l.events
    requires AreMirrored(recorded, mirrors, next)
    ensures |next.events| == |l.events| + 1 + |mirrors| && next.events[..|l.events|] == l.events
    ensures next.events[|l.events|] == recorded.events[|l.events|]
    ensures forall j :: 0 <= j < |mirrors| ==> IsMirror(next.events[|l.events| + 1 + j], recorded.runId, mirrors[j])
  {
    hide IsMirror;
    assert forall j :: 0 <= j < |recorded.events| ==> next.events[..|recorded.events|][j] == recorded.events[j];
    assert next.events[..|l.events|] == l.events;
  }

  /** A structured artifact is recorded as an import and mirrored, event by event, behind its record. */
  lemma StructuredImportIsMirrored(l: Ledger, contextRun: string, a: Artifact, now: string)
    requires a.structured && Import(l, contextRun, a, now).Ok?
    ensures var next := Import(l, contextRun, a, now).value;
            && |next.events| == |l.events| + 1 + |a.mirrors| && next.events[..|l.events|] == l.events
            && (var e := next.events[|l.events|];
                e.kind == LegacyImport && e.status == Recorded && e.provenance == Legacy && e.payload == Imported(a.freeFormOnly, true))
            && forall j :: 0 <= j < |a.mirrors| ==> IsMirror(next.events[|l.events| + 1 + j], l.runId, a.mirrors[j])
  {
    var input := RecordInput(l, contextRun, a);
    ImportHasTwoSteps(l, contextRun, a, now);
    AppendAddsOne(l, input, now);
    hide Append, Mirror, Import, AreMirrored, IsMirror, Trim;
    var recorded := Append(l, input, now).value;
    MirrorsInOrder(recorded, contextRun, a.mirrors, a.warnings, now);
    RecordThenMirrors(l, recorded, a.mirrors, Import(l, contextRun, a, now).value);
  }
}
