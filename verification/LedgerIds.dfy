/** Generated event ids: when an append without an explicit id can be refused as a duplicate. */
module LedgerIds {
  import opened Js
  import opened Ledger
  import opened LedgerRuns

  lemma {:induction false} DecimalInjective(a: nat, b: nat)
    requires Decimal(a) == Decimal(b)
    ensures a == b
  {
    DecimalShape(a);
    DecimalShape(b);
    var da, db := Decimal(a), Decimal(b);
    assert da[|da| - 1] == Digit(a % 10) && db[|db| - 1] == Digit(b % 10);
    DigitInjective(a % 10, b % 10);
    if a >= 10 {
      assert Decimal(a)[..|da| - 1] == Decimal(a / 10) && Decimal(b)[..|db| - 1] == Decimal(b / 10);
      DecimalInjective(a / 10, b / 10);
    }
  }

  lemma DigitInjective(a: nat, b: nat)
    requires a < 10 && b < 10 && Digit(a) == Digit(b)
    ensures a == b
  {
  }

  lemma KindNameShape(kind: Kind)
    ensures ':' !in KindName(kind)
  {
    match kind
    case CoderEvidence =>
    case ReviewerEvidence =>
    case GateDecision =>
    case FinalizationDecision =>
    case QualityAuditBlocker =>
    case AfkReference =>
    case LegacyImport =>
  }

  lemma KindNamesDiffer(a: Kind, b: Kind)
    requires KindName(a) == KindName(b)
    ensures a == b
  {
    assert KindName(a)[0] == KindName(b)[0] && |KindName(a)| == |KindName(b)|;
  }

  lemma {:induction false} JoinedNames(x: string, y: string, u: string, v: string)
    requires x + (":" + u) == y + (":" + v) && ':' !in x && ':' !in y
    ensures x == y && u == v
  {
    assert (x + (":" + u))[0] == (y + (":" + v))[0];
    if x == [] || y == [] {
      assert x == [] && y == [];
      assert x + (":" + u) == ":" + u && y + (":" + v) == ":" + v;
      assert (":" + u)[1..] == u && (":" + v)[1..] == v;
    } else {
      assert (x + (":" + u))[1..] == x[1..] + (":" + u) && (y + (":" + v))[1..] == y[1..] + (":" + v);
      JoinedNames(x[1..], y[1..], u, v);
      assert x == [x[0]] + x[1..] && y == [y[0]] + y[1..];
    }
  }

  lemma IdParts(kind: Kind, runId: string, n: nat)
    ensures GeneratedId(kind, runId, n) == KindName(kind) + (":" + (runId + (":" + Decimal(n))))
  {
    hide KindName, Decimal;
  }

  lemma SameSuffix(runId: string, u: string, v: string)
    requires runId + (":" + u) == runId + (":" + v)
    ensures u == v
  {
    assert (runId + (":" + u))[|runId| + 1..] == u && (runId + (":" + v))[|runId| + 1..] == v;
  }

  /** A generated id determines its kind and number. */
  lemma GeneratedIdsAreDistinct(a: Kind, b: Kind, runId: string, m: nat, n: nat)
    requires GeneratedId(a, runId, m) == GeneratedId(b, runId, n)
    ensures a == b && m == n
  {
    IdParts(a, runId, m);
    IdParts(b, runId, n);
    hide KindName, Decimal, GeneratedId;
    KindNameShape(a);
    KindNameShape(b);
    JoinedNames(KindName(a), KindName(b), runId + (":" + Decimal(m)), runId + (":" + Decimal(n)));
    SameSuffix(runId, Decimal(m), Decimal(n));
    DecimalInjective(m, n);
    KindNamesDiffer(a, b);
  }

  // ---------- Histories without explicit ids ----------

  predicate Generates(i: AppendInput) {
    (i.id.None? || Blank(i.id.value)) && i.number.None?
  }

  predicate OnlyGenerates(op: Op) {
    op.AppendOp? ==> Generates(op.input)
  }

  /** Every id was generated for its event's kind, with a number not past the count of that kind. */
  ghost predicate Numbered(l: Ledger) {
    forall e :: e in l.events ==> exists n: nat :: n <= CountKind(l.events, e.kind) && e.id == GeneratedId(e.kind, l.runId, n)
  }

  lemma CountGrows(events: seq<Event>, e: Event)
    ensures forall k :: CountKind(events + [e], k) == CountKind(events, k) + if e.kind == k then 1 else 0
  {
    assert (events + [e])[..|events|] == events;
  }

  lemma FreshWhenNumbered(l: Ledger, kind: Kind)
    requires Numbered(l)
    ensures !HasId(l.events, GeneratedId(kind, l.runId, CountKind(l.events, kind) + 1))
  {
    hide GeneratedId;
    var id := GeneratedId(kind, l.runId, CountKind(l.events, kind) + 1);
    if HasId(l.events, id) {
      var e :| e in l.events && e.id == id;
      var n: nat :| n <= CountKind(l.events, e.kind) && e.id == GeneratedId(e.kind, l.runId, n);
      GeneratedIdsAreDistinct(kind, e.kind, l.runId, CountKind(l.events, kind) + 1, n);
    }
  }

  lemma AppendStaysNumbered(l: Ledger, e: Event, at: string)
    requires Numbered(l) && e.id == GeneratedId(e.kind, l.runId, CountKind(l.events, e.kind) + 1)
    ensures Numbered(Ledger(l.runId, at, l.events + [e]))
  {
    hide GeneratedId;
    var m := Ledger(l.runId, at, l.events + [e]);
    CountGrows(l.events, e);
    hide CountKind;
    forall x | x in m.events
      ensures exists n: nat :: n <= CountKind(m.events, x.kind) && x.id == GeneratedId(x.kind, m.runId, n)
    {
      if x in l.events {
        var n: nat :| n <= CountKind(l.events, x.kind) && x.id == GeneratedId(x.kind, l.runId, n);
      } else {
        assert CountKind(m.events, x.kind) == CountKind(l.events, e.kind) + 1;
      }
    }
  }

  lemma {:induction false} MarkKeepsCounts(events: seq<Event>, k: nat, e: Event)
    requires k < |events| && e.kind == events[k].kind
    ensures forall kind :: CountKind(events[k := e], kind) == CountKind(events, kind)
  {
    var n := |events| - 1;
    if k < n {
      assert events[k := e][..n] == events[..n][k := e];
      MarkKeepsCounts(events[..n], k, e);
    } else {
      assert events[k := e][..n] == events[..n];
    }
  }

  lemma MarkStaysNumbered(l: Ledger, m: Mark)
    requires Numbered(l) && MarkStatus(l, m).Ok?
    ensures Numbered(MarkStatus(l, m).value)
  {
    MarkReplacesOne(l, m);
    var next := MarkStatus(l, m).value;
    hide MarkStatus, GeneratedId;
    var k :| 0 <= k < |l.events| && next == Ledger(l.runId, Trim(m.now), l.events[k := Marked(l.events[k], m)]);
    MarkKeepsCounts(l.events, k, Marked(l.events[k], m));
    hide CountKind;
    forall x | x in next.events
      ensures exists n: nat :: n <= CountKind(next.events, x.kind) && x.id == GeneratedId(x.kind, next.runId, n)
    {
      var j :| 0 <= j < |next.events| && next.events[j] == x;
      var y := l.events[j];
      assert y in l.events && y.id == x.id && y.kind == x.kind;
      var n: nat :| n <= CountKind(l.events, y.kind) && y.id == GeneratedId(y.kind, l.runId, n);
    }
  }

  lemma GeneratedAppend(l: Ledger, i: AppendInput, now: string)
    requires Numbered(l) && Generates(i)
    ensures Append(l, i, now) != Err(DuplicateId)
    ensures Append(l, i, now).Ok? ==> Numbered(Append(l, i, now).value)
  {
    hide Numbered, GeneratedId, HasId, CountKind, IsFreeForm, Trim;
    FreshWhenNumbered(l, i.kind);
    if Append(l, i, now).Ok? {
      AppendStaysNumbered(l, NewEvent(l, i, now), Trim(now));
    }
  }

  lemma {:induction false} MirrorStaysNumbered(l: Ledger, contextRun: string, mirrors: seq<(Kind, string)>, warnings: seq<string>, now: string)
    requires Numbered(l)
    ensures Mirror(l, contextRun, mirrors, warnings, now) != Err(DuplicateId)
    ensures Mirror(l, contextRun, mirrors, warnings, now).Ok? ==> Numbered(Mirror(l, contextRun, mirrors, warnings, now).value)
  {
    if mirrors != [] {
      var front := mirrors[..|mirrors| - 1];
      MirrorStaysNumbered(l, contextRun, front, warnings, now);
      var before := Mirror(l, contextRun, front, warnings, now);
      if before.Ok? {
        GeneratedAppend(before.value, ImportInput(before.value, contextRun, mirrors[|mirrors| - 1].0, warnings, Content(mirrors[|mirrors| - 1].1)), now);
      }
      hide Append, Numbered;
    }
  }

  lemma AttemptStaysNumbered(l: Ledger, op: Op)
    requires Numbered(l) && OnlyGenerates(op)
    ensures Attempt(l, op) != Err(DuplicateId)
    ensures Attempt(l, op).Ok? ==> Numbered(Attempt(l, op).value)
  {
    hide Numbered, Append, MarkStatus;
    match op
    case AppendOp(i, now) => GeneratedAppend(l, i, now);
    case MarkOp(m) =>
      if MarkStatus(l, m).Ok? {
        MarkStaysNumbered(l, m);
      }
      MarksAreNotDuplicates(l, m);
    case ImportOp(contextRun, a, now) =>
      var input := ImportInput(l, contextRun, LegacyImport, a.warnings, Imported(a.freeFormOnly, a.structured));
      GeneratedAppend(l, input, now);
      if Append(l, input, now).Ok? {
        var recorded := Append(l, input, now).value;
        if a.structured {
          MirrorStaysNumbered(recorded, contextRun, a.mirrors, a.warnings, now);
        } else {
          AppendEndsWithEvent(l, input, now);
          var m := Mark(recorded.events[|recorded.events| - 1].id, Rejected, now, "", a.warnings);
          MarksAreNotDuplicates(recorded, m);
          if MarkStatus(recorded, m).Ok? {
            MarkStaysNumbered(recorded, m);
          }
        }
      }
  }

  lemma AppendEndsWithEvent(l: Ledger, i: AppendInput, now: string)
    requires Append(l, i, now).Ok?
    ensures Append(l, i, now).value.events != []
  {
  }

  lemma MarksAreNotDuplicates(l: Ledger, m: Mark)
    ensures MarkStatus(l, m) != Err(DuplicateId)
  {
  }

  /** A ledger fed only by generated ids, imports and marks never refuses an append as a duplicate. */
  lemma {:induction false} GeneratedIdsNeverCollide(runId: string, now: string, ops: seq<Op>, op: Op)
    requires forall i :: 0 <= i < |ops| ==> OnlyGenerates(ops[i])
    requires OnlyGenerates(op)
    ensures Numbered(Run(Empty(runId, now), ops))
    ensures Attempt(Run(Empty(runId, now), ops), op) != Err(DuplicateId)
  {
    var l := Run(Empty(runId, now), ops);
    if ops != [] {
      GeneratedIdsNeverCollide(runId, now, ops[..|ops| - 1], ops[|ops| - 1]);
      AttemptStaysNumbered(Run(Empty(runId, now), ops[..|ops| - 1]), ops[|ops| - 1]);
    }
    AttemptStaysNumbered(l, op);
    hide Attempt, Numbered, OnlyGenerates;
  }

  // ---------- A squatted id ----------

  /** An explicit id can occupy the next generated id of a kind; then exactly the appends of that kind without an id are refused. */
  lemma DuplicateIff(l: Ledger, i: AppendInput, now: string)
    requires Generates(i) && i.runId == l.runId == i.contextRun && !Blank(now) && i.recordedAt.None?
    requires !(i.status.Accepted? && IsFreeForm(NewEvent(l, i, now)))
    ensures Append(l, i, now) == Err(DuplicateId) <==> HasId(l.events, GeneratedId(i.kind, l.runId, CountKind(l.events, i.kind) + 1))
    ensures Append(l, i, now).Ok? || Append(l, i, now) == Err(DuplicateId)
  {
    hide HasId, GeneratedId;
  }

  ghost predicate Squatted(l: Ledger, kind: Kind) {
    HasId(l.events, GeneratedId(kind, l.runId, CountKind(l.events, kind) + 1))
  }

  lemma AppendKeepsSquatting(l: Ledger, i: AppendInput, now: string, kind: Kind)
    requires Squatted(l, kind) && Generates(i) && Append(l, i, now).Ok?
    ensures Squatted(Append(l, i, now).value, kind)
  {
    hide GeneratedId, CountKind, IsFreeForm, Trim, Blank, HasId;
    var e := NewEvent(l, i, now);
    CountGrows(l.events, e);
    HasIdGrows(l.events, e);
    assert Append(l, i, now).value.events == l.events + [e] && Append(l, i, now).value.runId == l.runId;
    assert !HasId(l.events, e.id);
    GeneratedEvent(l, i, now);
    hide NewEvent, Append;
    assert e.kind != kind;
  }

  lemma GeneratedEvent(l: Ledger, i: AppendInput, now: string)
    requires Generates(i)
    ensures i.runId == l.runId ==> NewEvent(l, i, now).id == GeneratedId(NewEvent(l, i, now).kind, l.runId, CountKind(l.events, i.kind) + 1)
    ensures NewEvent(l, i, now).kind == i.kind
    ensures Append(l, i, now).Ok? ==> i.runId == l.runId
  {
    hide GeneratedId, CountKind, IsFreeForm, Trim, HasId;
  }

  lemma HasIdGrows(events: seq<Event>, e: Event)
    ensures forall id :: HasId(events, id) ==> HasId(events + [e], id)
  {
  }

  lemma MarkKeepsIds(l: Ledger, m: Mark, id: string)
    requires MarkStatus(l, m).Ok? && HasId(l.events, id)
    ensures HasId(MarkStatus(l, m).value.events, id)
  {
    MarkReplacesOne(l, m);
    var next := MarkStatus(l, m).value;
    hide MarkStatus;
    var k :| 0 <= k < |l.events| && next == Ledger(l.runId, Trim(m.now), l.events[k := Marked(l.events[k], m)]);
    var e :| e in l.events && e.id == id;
    var j :| 0 <= j < |l.events| && l.events[j] == e;
    assert next.events[j] in next.events && next.events[j].id == e.id;
  }

  lemma MarkKeepsSquatting(l: Ledger, m: Mark, kind: Kind)
    requires Squatted(l, kind) && MarkStatus(l, m).Ok?
    ensures Squatted(MarkStatus(l, m).value, kind)
  {
    MarkKeepsIds(l, m, GeneratedId(kind, l.runId, CountKind(l.events, kind) + 1));
    MarkReplacesOne(l, m);
    var next := MarkStatus(l, m).value;
    hide MarkStatus, GeneratedId, CountKind, HasId;
    var k :| 0 <= k < |l.events| && next == Ledger(l.runId, Trim(m.now), l.events[k := Marked(l.events[k], m)]);
    MarkKeepsCounts(l.events, k, Marked(l.events[k], m));
  }

  lemma {:induction false} MirrorKeepsSquatting(l: Ledger, contextRun: string, mirrors: seq<(Kind, string)>, warnings: seq<string>, now: string, kind: Kind)
    requires Squatted(l, kind) && Mirror(l, contextRun, mirrors, warnings, now).Ok?
    ensures Squatted(Mirror(l, contextRun, mirrors, warnings, now).value, kind)
  {
    if mirrors != [] {
      var front := mirrors[..|mirrors| - 1];
      MirrorKeepsSquatting(l, contextRun, front, warnings, now, kind);
      var before := Mirror(l, contextRun, front, warnings, now).value;
      AppendKeepsSquatting(before, ImportInput(before, contextRun, mirrors[|mirrors| - 1].0, warnings, Content(mirrors[|mirrors| - 1].1)), now, kind);
      hide Append, Squatted;
    }
  }

  lemma ImportKeepsSquatting(l: Ledger, contextRun: string, a: Artifact, now: string, kind: Kind)
    requires Squatted(l, kind) && Import(l, contextRun, a, now).Ok?
    ensures Squatted(Import(l, contextRun, a, now).value, kind)
  {
    hide Append, Squatted, MarkStatus;
    var input := ImportInput(l, contextRun, LegacyImport, a.warnings, Imported(a.freeFormOnly, a.structured));
    AppendKeepsSquatting(l, input, now, kind);
    AppendEndsWithEvent(l, input, now);
    var recorded := Append(l, input, now).value;
    if a.structured {
      MirrorKeepsSquatting(recorded, contextRun, a.mirrors, a.warnings, now, kind);
    } else {
      MarkKeepsSquatting(recorded, Mark(recorded.events[|recorded.events| - 1].id, Rejected, now, "", a.warnings), kind);
    }
  }

  /** Marks, imports and appends of generated ids all leave a squatted id squatted: the kind stays refused. */
  lemma SquattingLasts(l: Ledger, op: Op, kind: Kind)
    requires Squatted(l, kind) && OnlyGenerates(op)
    ensures Squatted(Apply(l, op), kind)
  {
    hide Squatted, Append, MarkStatus, Import, Generates;
    match op
    case MarkOp(m) =>
      if MarkStatus(l, m).Ok? {
        MarkKeepsSquatting(l, m, kind);
      }
    case AppendOp(i, now) =>
      if Append(l, i, now).Ok? {
        AppendKeepsSquatting(l, i, now, kind);
      }
    case ImportOp(contextRun, a, now) =>
      if Import(l, contextRun, a, now).Ok? {
        ImportKeepsSquatting(l, contextRun, a, now, kind);
      }
  }

  /** What an append must bring to be accepted, read off the ledger and the input. */
  ghost predicate Acceptable(l: Ledger, i: AppendInput, now: string) {
    && i.runId == l.runId == i.contextRun && !Blank(now) && (i.recordedAt.Some? ==> !Blank(i.recordedAt.value))
    && !(i.status.Accepted? && i.kind.LegacyImport? && i.payload.Imported? && (!i.payload.structured || i.payload.freeFormOnly))
    && !HasId(l.events, IdFor(l, i))
  }

  lemma AppendIsAcceptedIff(l: Ledger, i: AppendInput, now: string)
    ensures Append(l, i, now).Ok? <==> Acceptable(l, i, now)
  {
    hide HasId, IdFor, Trim, Blank;
  }

  /** An acceptable append of the kind, with an id or number of its own that is not the one after the squatted id, which is not taken either. */
  ghost predicate Frees(l: Ledger, op: Op, kind: Kind) {
    var after := GeneratedId(kind, l.runId, CountKind(l.events, kind) + 2);
    && op.AppendOp? && !Generates(op.input) && op.input.kind == kind && Acceptable(l, op.input, op.now)
    && !HasId(l.events, after) && IdFor(l, op.input) != after
  }

  /** Exactly which operations end the squatting: no mark, no import, no generated append, and of the other appends those that `Frees` describes. */
  lemma SquattingEndsIff(l: Ledger, op: Op, kind: Kind)
    requires Squatted(l, kind)
    ensures !Squatted(Apply(l, op), kind) <==> Frees(l, op, kind)
  {
    hide Squatted, Append, Generates, HasId, GeneratedId, CountKind, MarkStatus, Import, Acceptable, IdFor;
    if OnlyGenerates(op) {
      SquattingLasts(l, op, kind);
    } else {
      AppendIsAcceptedIff(l, op.input, op.now);
      if Append(l, op.input, op.now).Ok? {
        ChosenIdEndsIff(l, op.input, op.now, kind);
      }
    }
  }

  lemma ChosenIdEndsIff(l: Ledger, i: AppendInput, now: string, kind: Kind)
    requires Squatted(l, kind) && Append(l, i, now).Ok?
    ensures var m := Append(l, i, now).value;
            var after := GeneratedId(kind, l.runId, CountKind(l.events, kind) + 2);
            Squatted(m, kind) <==> i.kind != kind || HasId(l.events, after) || IdFor(l, i) == after
  {
    hide GeneratedId, CountKind, IsFreeForm, Trim, Blank, HasId, IdFor;
    var e := NewEvent(l, i, now);
    CountGrows(l.events, e);
    HasIdOneMore(l.events, e);
    assert e.id == IdFor(l, i) && e.kind == i.kind;
    assert Append(l, i, now).value == Ledger(l.runId, Trim(now), l.events + [e]);
    hide NewEvent, Append;
  }

  lemma HasIdOneMore(events: seq<Event>, e: Event)
    ensures forall id :: HasId(events + [e], id) <==> HasId(events, id) || e.id == id
  {
    assert e in events + [e];
  }

  /** Over whole runs: only a caller's own id or number can end a kind's refusal. */
  lemma {:induction false} SquattingLastsOverRuns(l: Ledger, ops: seq<Op>, kind: Kind)
    requires Squatted(l, kind) && forall i :: 0 <= i < |ops| ==> OnlyGenerates(ops[i])
    ensures Squatted(Run(l, ops), kind)
  {
    if ops != [] {
      var front := ops[..|ops| - 1];
      SquattingLastsOverRuns(l, front, kind);
      SquattingLasts(Run(l, front), ops[|ops| - 1], kind);
      hide Squatted, Apply, OnlyGenerates;
    }
  }
}
