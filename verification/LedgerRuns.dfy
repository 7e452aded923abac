/** What holds of every ledger that appends, imports and marks can reach, and what the queries return on any ledger. */
module LedgerRuns {
  import opened Js
  import opened Ledger

  datatype Op =
    | AppendOp(input: AppendInput, now: string)
    | MarkOp(mark: Mark)
    | ImportOp(contextRun: string, artifact: Artifact, now: string)

  function Attempt(l: Ledger, op: Op): Result<Ledger, Error> {
    match op
    case AppendOp(i, now) => Append(l, i, now)
    case MarkOp(m) => MarkStatus(l, m)
    case ImportOp(contextRun, a, now) => Import(l, contextRun, a, now)
  }

  /** A refused operation leaves the caller with the ledger it had. */
  function Apply(l: Ledger, op: Op): Ledger {
    match Attempt(l, op)
    case Ok(next) => next
    case Err(_) => l
  }

  function Run(l: Ledger, ops: seq<Op>): Ledger {
    if ops == [] then l else Apply(Run(l, ops[..|ops| - 1]), ops[|ops| - 1])
  }

  // ---------- The invariant ----------

  ghost predicate UniqueIds(events: seq<Event>) {
    forall i, j :: 0 <= i < j < |events| ==> events[i].id != events[j].id
  }

  predicate SoundEvent(e: Event, runId: string) {
    e.runId == runId && e.contextRun == runId && !(e.status.Accepted? && IsFreeForm(e))
  }

  ghost predicate Sound(l: Ledger) {
    UniqueIds(l.events) && forall e :: e in l.events ==> SoundEvent(e, l.runId)
  }

  lemma AppendIsSound(l: Ledger, i: AppendInput, now: string)
    requires Sound(l) && Append(l, i, now).Ok?
    ensures var m := Append(l, i, now).value;
            Sound(m) && m.runId == l.runId && m.events == l.events + [NewEvent(l, i, now)]
  {
    hide IdFor;
    var e := NewEvent(l, i, now);
    assert forall k :: 0 <= k < |l.events| ==> l.events[k] in l.events;
  }

  lemma {:induction false} FirstWithFinds(events: seq<Event>, id: string)
    ensures var k := FirstWith(events, id); k < |events| ==> events[k].id == id
    ensures FirstWith(events, id) == |events| <==> !HasId(events, id)
    ensures forall j :: 0 <= j < FirstWith(events, id) ==> events[j].id != id
  {
    if events != [] && events[0].id != id {
      FirstWithFinds(events[1..], id);
      assert events == [events[0]] + events[1..];
    } else if events != [] {
      assert events[0] in events;
    }
  }

  lemma MarkReplacesOne(l: Ledger, m: Mark)
    requires MarkStatus(l, m).Ok?
    ensures var next := MarkStatus(l, m).value;
            exists k :: 0 <= k < |l.events| && l.events[k].id == Trim(m.id)
              && next == Ledger(l.runId, Trim(m.now), l.events[k := Marked(l.events[k], m)])
              && forall j :: 0 <= j < |l.events| && j != k ==> l.events[j].id != Trim(m.id)
  {
    var id := Trim(m.id);
    var k := FirstWith(l.events, id);
    FirstWithFinds(l.events, id);
    assert forall j :: k < j < |l.events| ==> l.events[j] in l.events[k + 1..] by {
      forall j | k < j < |l.events|
        ensures l.events[j] in l.events[k + 1..]
      {
        assert l.events[j] == l.events[k + 1..][j - k - 1];
      }
    }
    hide FirstWith;
  }

  /**
   * The ledger after a mark, field by field: the event at `k`, the only one with the id, has the asked status, the new warnings behind its
   * old ones, the trimmed time and, where it is superseded, the trimmed id of what replaces it. The rest of it, and every other event, is as it was.
   */
  ghost predicate MarkedAt(l: Ledger, m: Mark, next: Ledger, k: int) {
    && 0 <= k < |l.events| && |next.events| == |l.events| && next.runId == l.runId && next.updatedAt == Trim(m.now)
    && (forall j :: 0 <= j < |l.events| && j != k ==> next.events[j] == l.events[j] && l.events[j].id != Trim(m.id))
    && var (e, f) := (l.events[k], next.events[k]);
       && f.id == e.id == Trim(m.id)
       && f.status == m.status
       && f.warnings == e.warnings + m.warnings
       && f.recordedAt == Trim(m.now)
       && f.supersededBy == (if m.status == Superseded then Some(Trim(m.supersededBy)) else e.supersededBy)
       && f.runId == e.runId && f.kind == e.kind && f.provenance == e.provenance && f.contextRun == e.contextRun && f.payload == e.payload
  }

  /** A mark changes the one event that carries the id, in place and as asked. */
  lemma MarkChangesExactlyOne(l: Ledger, m: Mark)
    requires MarkStatus(l, m).Ok?
    ensures exists k :: MarkedAt(l, m, MarkStatus(l, m).value, k)
  {
    MarkReplacesOne(l, m);
    hide MarkStatus, Trim;
    var next := MarkStatus(l, m).value;
    var k :| 0 <= k < |l.events| && l.events[k].id == Trim(m.id) && next == Ledger(l.runId, Trim(m.now), l.events[k := Marked(l.events[k], m)])
      && forall j :: 0 <= j < |l.events| && j != k ==> l.events[j].id != Trim(m.id);
    assert MarkedAt(l, m, next, k);
  }

  /** An import whose record holds free text only, or nothing structured. */
  ghost predicate FreeForm(e: Event) {
    e.kind == LegacyImport && e.payload.Imported? && (e.payload.freeFormOnly || !e.payload.structured)
  }

  /** The event at `k` is the only one with the id. */
  ghost predicate OnlyWith(events: seq<Event>, id: string, k: int) {
    0 <= k < |events| && events[k].id == id && forall j :: 0 <= j < |events| && j != k ==> events[j].id != id
  }

  /**
   * When a mark is accepted: exactly one event carries the trimmed id, the time is given, a superseding event is named where it must be,
   * and no free-form import is to be accepted.
   */
  lemma MarkIsAcceptedIff(l: Ledger, m: Mark)
    ensures MarkStatus(l, m).Ok?
            <==> !Blank(m.id) && !Blank(m.now) && (m.status == Superseded ==> !Blank(m.supersededBy))
                 && exists k :: OnlyWith(l.events, Trim(m.id), k) && !(m.status == Accepted && FreeForm(l.events[k]))
  {
    var id := Trim(m.id);
    var first := FirstWith(l.events, id);
    FirstWithFinds(l.events, id);
    hide FirstWith, Trim;
    if MarkStatus(l, m).Ok? {
      MarkReplacesOne(l, m);
      assert OnlyWith(l.events, id, first);
    }
    if k :| OnlyWith(l.events, id, k) {
      assert first == k && !HasId(l.events[k + 1..], id);
    }
  }

  lemma MarkIsSound(l: Ledger, m: Mark)
    requires Sound(l) && MarkStatus(l, m).Ok?
    ensures Sound(MarkStatus(l, m).value)
  {
    var k := FirstWith(l.events, Trim(m.id));
    hide FirstWith;
    var e, next := Marked(l.events[k], m), MarkStatus(l, m).value;
    assert l.events[k] in l.events;
    forall x | x in next.events
      ensures SoundEvent(x, l.runId)
    {
      assert x == e || x in l.events;
    }
  }

  /** Mirroring only adds events, all of legacy provenance and not yet accepted. */
  lemma {:induction false} MirrorAdds(l: Ledger, contextRun: string, mirrors: seq<(Kind, string)>, warnings: seq<string>, now: string)
    requires Sound(l) && Mirror(l, contextRun, mirrors, warnings, now).Ok?
    ensures Imports(l, Mirror(l, contextRun, mirrors, warnings, now).value)
  {
    if mirrors != [] {
      var front := mirrors[..|mirrors| - 1];
      MirrorAdds(l, contextRun, front, warnings, now);
      var before := Mirror(l, contextRun, front, warnings, now).value;
      AppendIsSound(before, ImportInput(before, contextRun, mirrors[|mirrors| - 1].0, warnings, Content(mirrors[|mirrors| - 1].1)), now);
      hide Append, IdFor, Sound;
    }
  }

  /** The ledger after an import: the old events as they were, then legacy ones that are recorded or rejected. */
  ghost predicate Imports(l: Ledger, m: Ledger) {
    && Sound(m) && m.runId == l.runId && l.events <= m.events
    && forall j :: |l.events| <= j < |m.events| ==> m.events[j].provenance.Legacy? && (m.events[j].status.Recorded? || m.events[j].status.Rejected?)
  }

  lemma RecordingAdds(l: Ledger, i: AppendInput, now: string)
    requires Sound(l) && Append(l, i, now).Ok? && i.provenance.Legacy? && i.status.Recorded?
    ensures Imports(l, Append(l, i, now).value)
  {
    AppendIsSound(l, i, now);
    hide Append, Sound;
  }

  lemma ImportsChain(a: Ledger, b: Ledger, c: Ledger)
    requires Imports(a, b) && Imports(b, c)
    ensures Imports(a, c)
  {
    hide Sound;
  }

  /** The record of an unstructured artifact can always be rejected. */
  lemma LastCanBeRejected(l: Ledger, m: Mark)
    requires UniqueIds(l.events) && l.events != []
    requires m.status.Rejected? && !Blank(m.now) && m.id == l.events[|l.events| - 1].id == Trim(m.id) && m.id != ""
    ensures MarkStatus(l, m).Ok?
    ensures var n := |l.events| - 1;
            MarkStatus(l, m).value == Ledger(l.runId, Trim(m.now), l.events[n := Marked(l.events[n], m)])
  {
    var k := FirstWith(l.events, m.id);
    FirstWithFinds(l.events, m.id);
    assert l.events[|l.events| - 1] in l.events;
    assert l.events[k + 1..] == [];
    hide FirstWith;
  }

  lemma {:induction false} DecimalShape(n: nat)
    ensures var d := Decimal(n); d != [] && forall i :: 0 <= i < |d| ==> '0' <= d[i] <= '9'
    ensures |Decimal(n)| == 1 <==> n < 10
  {
    if n >= 10 {
      DecimalShape(n / 10);
    }
  }

  lemma GeneratedIdsAreTrimmed(kind: Kind, runId: string, n: nat)
    ensures Trim(GeneratedId(kind, runId, n)) == GeneratedId(kind, runId, n) && GeneratedId(kind, runId, n) != ""
  {
    DecimalShape(n);
    var id := GeneratedId(kind, runId, n);
    assert id[|id| - 1] == Decimal(n)[|Decimal(n)| - 1];
    assert id[0] == KindName(kind)[0];
    TrimKeeps(id);
    hide Decimal, Trim;
  }

  /** An import leaves every old event as it was and adds legacy events none of which is accepted. */
  lemma ImportOnlyAddsLegacy(l: Ledger, contextRun: string, a: Artifact, now: string)
    requires Sound(l) && Import(l, contextRun, a, now).Ok?
    ensures Imports(l, Import(l, contextRun, a, now).value)
  {
    var input := ImportInput(l, contextRun, LegacyImport, a.warnings, Imported(a.freeFormOnly, a.structured));
    var recorded := Append(l, input, now).value;
    RecordingAdds(l, input, now);
    AppendIsSound(l, input, now);
    if a.structured {
      MirrorAdds(recorded, contextRun, a.mirrors, a.warnings, now);
      ImportsChain(l, recorded, Import(l, contextRun, a, now).value) by {
        hide Append, Imports;
      }
    } else {
      var last := recorded.events[|recorded.events| - 1];
      GeneratedIdsAreTrimmed(LegacyImport, l.runId, 1 + CountKind(l.events, LegacyImport));
      RejectedRecordIsImport(l, recorded, Mark(last.id, Rejected, now, "", a.warnings));
    }
  }

  lemma RejectedRecordIsImport(l: Ledger, recorded: Ledger, m: Mark)
    requires Imports(l, recorded) && |recorded.events| == |l.events| + 1
    requires m.status.Rejected? && !Blank(m.now) && m.id == recorded.events[|l.events|].id == Trim(m.id) && m.id != ""
    ensures MarkStatus(recorded, m).Ok? && Imports(l, MarkStatus(recorded, m).value)
  {
    LastCanBeRejected(recorded, m);
    MarkIsSound(recorded, m);
    hide MarkStatus, Sound, Trim;
  }

  /** Every reachable ledger is sound: ids unique, one run throughout, no free-form import accepted. */
  lemma {:induction false} RunSound(l: Ledger, ops: seq<Op>)
    requires Sound(l)
    ensures Sound(Run(l, ops)) && Run(l, ops).runId == l.runId
  {
    if ops != [] {
      RunSound(l, ops[..|ops| - 1]);
      ApplySound(Run(l, ops[..|ops| - 1]), ops[|ops| - 1]);
    }
  }

  lemma ApplySound(l: Ledger, op: Op)
    requires Sound(l)
    ensures Sound(Apply(l, op)) && Apply(l, op).runId == l.runId
  {
    hide Sound;
    match op
    case AppendOp(i, now) => if Append(l, i, now).Ok? { AppendIsSound(l, i, now); }
    case MarkOp(m) => if MarkStatus(l, m).Ok? { MarkIsSound(l, m); }
    case ImportOp(contextRun, a, now) => if Import(l, contextRun, a, now).Ok? { ImportOnlyAddsLegacy(l, contextRun, a, now); }
  }

  /** From an empty ledger, whatever is appended, imported and marked. */
  lemma ReachableLedgersAreSound(runId: string, now: string, ops: seq<Op>)
    ensures Sound(Run(Empty(runId, now), ops)) && Run(Empty(runId, now), ops).runId == runId
  {
    RunSound(Empty(runId, now), ops);
  }
}
