/** The evidence ledger of a delivery run: appends, status marks, legacy imports and queries. */
module Ledger {
  import opened Js

  datatype Kind =
    | CoderEvidence | ReviewerEvidence | GateDecision | FinalizationDecision | QualityAuditBlocker | AfkReference | LegacyImport

  datatype Provenance = Canonical | Legacy | Projection | Manual

  datatype Status = Recorded | Accepted | Rejected | Superseded

  datatype Payload = Content(text: string) | Imported(freeFormOnly: bool, structured: bool)

  datatype Event = Event(
    id: string, runId: string, kind: Kind, provenance: Provenance, status: Status, recordedAt: string,
    contextRun: string, warnings: seq<string>, supersededBy: Option<string>, payload: Payload)

  datatype Ledger = Ledger(runId: string, updatedAt: string, events: seq<Event>)

  datatype Error =
    | RunMismatch | BadTime | ContextMismatch | FreeFormAccepted | DuplicateId | MissingId | NeedsSupersededBy | NotExactlyOne

  datatype AppendInput = AppendInput(
    runId: string, contextRun: string, kind: Kind, provenance: Provenance, status: Status, recordedAt: Option<string>,
    id: Option<string>, number: Option<nat>, warnings: seq<string>, supersededBy: Option<string>, payload: Payload)

  datatype Mark = Mark(id: string, status: Status, now: string, supersededBy: string, warnings: seq<string>)

  function Empty(runId: string, now: string): Ledger {
    Ledger(runId, now, [])
  }

  /** A legacy import without structured content is never authoritative. */
  predicate IsFreeForm(e: Event) {
    e.kind.LegacyImport? && e.payload.Imported? && (!e.payload.structured || e.payload.freeFormOnly)
  }

  // ---------- Generated ids ----------

  function KindName(kind: Kind): string {
    match kind
    case CoderEvidence => "coder_evidence"
    case ReviewerEvidence => "reviewer_evidence"
    case GateDecision => "gate_decision"
    case FinalizationDecision => "finalization_decision"
    case QualityAuditBlocker => "quality_audit_blocker"
    case AfkReference => "afk_reference"
    case LegacyImport => "legacy_import"
  }

  function Digit(d: nat): char
    requires d < 10
  {
    "0123456789"[d]
  }

  function Decimal(n: nat): string {
    if n < 10 then [Digit(n)] else Decimal(n / 10) + [Digit(n % 10)]
  }

  function GeneratedId(kind: Kind, runId: string, n: nat): string {
    KindName(kind) + ":" + runId + ":" + Decimal(n)
  }

  function CountKind(events: seq<Event>, kind: Kind): nat {
    if events == [] then 0
    else CountKind(events[..|events| - 1], kind) + if events[|events| - 1].kind == kind then 1 else 0
  }

  function IdFor(l: Ledger, i: AppendInput): string {
    if i.id.Some? && !Blank(i.id.value) then Trim(i.id.value)
    else GeneratedId(i.kind, i.runId, 1 + if i.number.Some? then i.number.value else CountKind(l.events, i.kind))
  }

  // ---------- Append ----------

  predicate HasId(events: seq<Event>, id: string) {
    exists e :: e in events && e.id == id
  }

  function NewEvent(l: Ledger, i: AppendInput, now: string): Event {
    Event(IdFor(l, i), i.runId, i.kind, i.provenance, i.status, if i.recordedAt.Some? then Trim(i.recordedAt.value) else Trim(now),
          i.contextRun, i.warnings, i.supersededBy, i.payload)
  }

  function Append(l: Ledger, i: AppendInput, now: string): Result<Ledger, Error> {
    if i.runId != l.runId then Err(RunMismatch)
    else if Blank(now) then Err(BadTime)
    else if i.contextRun != i.runId then Err(ContextMismatch)
    else if i.recordedAt.Some? && Blank(i.recordedAt.value) then Err(BadTime)
    else
      var e := NewEvent(l, i, now);
      if e.status.Accepted? && IsFreeForm(e) then Err(FreeFormAccepted)
      else if HasId(l.events, e.id) then Err(DuplicateId)
      else Ok(Ledger(l.runId, Trim(now), l.events + [e]))
  }

  // ---------- Marks ----------

  /** The position of the first event with the id, or the number of events. */
  function FirstWith(events: seq<Event>, id: string): (k: nat)
    ensures k <= |events|
  {
    if events == [] || events[0].id == id then 0 else 1 + FirstWith(events[1..], id)
  }

  function Marked(e: Event, m: Mark): Event {
    e.(status := m.status, recordedAt := Trim(m.now), warnings := e.warnings + m.warnings,
       supersededBy := if m.status.Superseded? then Some(Trim(m.supersededBy)) else e.supersededBy)
  }

  function MarkStatus(l: Ledger, m: Mark): Result<Ledger, Error> {
    var id := Trim(m.id);
    var k := FirstWith(l.events, id);
    if id == "" then Err(MissingId)
    else if Blank(m.now) then Err(BadTime)
    else if k == |l.events| then Err(NotExactlyOne)
    else if m.status.Superseded? && Blank(m.supersededBy) then Err(NeedsSupersededBy)
    else if m.status.Accepted? && IsFreeForm(l.events[k]) then Err(FreeFormAccepted)
    else if HasId(l.events[k + 1..], id) then Err(NotExactlyOne)
    else Ok(Ledger(l.runId, Trim(m.now), l.events[k := Marked(l.events[k], m)]))
  }

  // ---------- Imports ----------

  /** What an adapter found in a legacy artifact: structured content or none, and the typed events it mirrors. */
  datatype Artifact = Artifact(structured: bool, freeFormOnly: bool, mirrors: seq<(Kind, string)>, warnings: seq<string>)

  function ImportInput(l: Ledger, contextRun: string, kind: Kind, warnings: seq<string>, payload: Payload): AppendInput {
    AppendInput(l.runId, contextRun, kind, Legacy, Recorded, None, None, None, warnings, None, payload)
  }

  function Mirror(l: Ledger, contextRun: string, mirrors: seq<(Kind, string)>, warnings: seq<string>, now: string): Result<Ledger, Error> {
    if mirrors == [] then Ok(l)
    else
      var before := Mirror(l, contextRun, mirrors[..|mirrors| - 1], warnings, now);
      var (kind, text) := mirrors[|mirrors| - 1];
      if before.Err? then before
      else Append(before.value, ImportInput(before.value, contextRun, kind, warnings, Content(text)), now)
  }

  /** Record the artifact; without structured content reject the record at once, otherwise mirror what it holds. */
  function Import(l: Ledger, contextRun: string, a: Artifact, now: string): Result<Ledger, Error> {
    var recorded := Append(l, ImportInput(l, contextRun, LegacyImport, a.warnings, Imported(a.freeFormOnly, a.structured)), now);
    if recorded.Err? then recorded
    else if a.structured then Mirror(recorded.value, contextRun, a.mirrors, a.warnings, now)
    else
      var last := recorded.value.events[|recorded.value.events| - 1];
      MarkStatus(recorded.value, Mark(last.id, Rejected, now, "", a.warnings))
  }

  // ---------- Queries ----------

  /** JavaScript's `<` on strings: by UTF-16 code units, a prefix first. */
  predicate Before(a: string, b: string) {
    b != [] && (a == [] || a[0] < b[0] || (a[0] == b[0] && Before(a[1..], b[1..])))
  }

  /** Insert behind every event that is not later: the sort is stable. */
  function Insert(sorted: seq<Event>, e: Event): seq<Event> {
    if sorted != [] && Before(e.recordedAt, sorted[|sorted| - 1].recordedAt)
    then Insert(sorted[..|sorted| - 1], e) + [sorted[|sorted| - 1]]
    else sorted + [e]
  }

  predicate IsCurrent(l: Ledger, e: Event, kind: Kind) {
    e.kind == kind && e.runId == l.runId && !e.status.Superseded? && !e.status.Rejected?
  }

  function CurrentUpTo(l: Ledger, kind: Kind, n: nat): seq<Event>
    requires n <= |l.events|
  {
    if n == 0 then []
    else if IsCurrent(l, l.events[n - 1], kind) then Insert(CurrentUpTo(l, kind, n - 1), l.events[n - 1])
    else CurrentUpTo(l, kind, n - 1)
  }

  function FindCurrent(l: Ledger, kind: Kind): seq<Event> {
    CurrentUpTo(l, kind, |l.events|)
  }

  predicate Authoritative(e: Event) {
    e.status.Accepted? && !IsFreeForm(e)
  }

  function KeepAuthoritative(events: seq<Event>): seq<Event> {
    if events == [] then []
    else KeepAuthoritative(events[..|events| - 1]) + if Authoritative(events[|events| - 1]) then [events[|events| - 1]] else []
  }

  function FindAccepted(l: Ledger, kind: Kind): seq<Event> {
    KeepAuthoritative(FindCurrent(l, kind))
  }
}
