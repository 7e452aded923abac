/** Which part of a delegate's result counts as evidence: the canonical envelope, and nothing beside it. */
module CanonicalEvidence {
  import opened Js
  import opened Json

  /** What was found: typed payloads of canonical provenance, or nothing. */
  datatype Extraction = Extraction(coder: Option<Json>, reviewer: Option<Json>, canonical: bool, warnings: seq<string>)

  const NOTHING := Extraction(None, None, false, [])

  const SIDECAR_MARKERS: set<string> :=
    {"done", "completion", "source", "from_exit", "from_auto_exit", "at", "tool", "exit_code", "stop_reason", "warning", "summary",
     "delegateHistory"}

  predicate LooksLikeSidecar(fields: map<string, Json>) {
    exists key :: key in SIDECAR_MARKERS && key in fields
  }

  /** The envelope's own payloads, if it has one. */
  function Payloads(envelope: Json): Option<Extraction> {
    var coder, reviewer := Get(Some(envelope), "coderEvidence"), Get(Some(envelope), "reviewerEvidence");
    if coder.Some? || reviewer.Some? then Some(Extraction(coder, reviewer, true, Texts(Get(Some(envelope), "warnings")))) else None
  }

  predicate HasString(j: Json, key: string, s: string) {
    Get(Some(j), key) == Some(Str(s))
  }

  predicate IsEvent(j: Json) {
    j.Obj? && "kind" in j.fields && j.fields["kind"].Str?
  }

  predicate LedgerShaped(j: Json) {
    j.Obj? && "events" in j.fields && j.fields["events"].Arr?
    && forall i :: 0 <= i < |j.fields["events"].items| ==> IsEvent(j.fields["events"].items[i])
  }

  /** The payload of the first canonical event of a kind. */
  function FirstPayload(events: seq<Json>, kind: string): Option<Json> {
    if events == [] then None
    else if HasString(events[0], "kind", kind) && HasString(events[0], "provenance", "canonical") then Get(Some(events[0]), "payload")
    else FirstPayload(events[1..], kind)
  }

  function EventWarnings(events: seq<Json>): seq<string> {
    if events == [] then [] else Texts(Get(Some(events[0]), "warnings")) + EventWarnings(events[1..])
  }

  /** A record that is itself an event, or a ledger of events. */
  function FromEvents(j: Json): Extraction {
    if HasString(j, "kind", "coder_evidence") then
      if HasString(j, "provenance", "canonical")
      then Extraction(Get(Some(j), "payload"), None, true, Texts(Get(Some(j), "warnings")))
      else NOTHING
    else if HasString(j, "kind", "reviewer_evidence") then
      if HasString(j, "provenance", "canonical")
      then Extraction(None, Get(Some(j), "payload"), true, Texts(Get(Some(j), "warnings")))
      else NOTHING
    else if LedgerShaped(j) then
      var events := j.fields["events"].items;
      var coder, reviewer := FirstPayload(events, "coder_evidence"), FirstPayload(events, "reviewer_evidence");
      if coder.Some? || reviewer.Some? then Extraction(coder, reviewer, true, Distinct(EventWarnings(events))) else NOTHING
    else NOTHING
  }

  function Extract(j: Json): Extraction
    decreases j
  {
    if !j.Obj? then NOTHING
    else if "evidence" in j.fields && j.fields["evidence"].Obj? && Payloads(j.fields["evidence"]).Some? then
      Payloads(j.fields["evidence"]).value
    else if "evidence" in j.fields && j.fields["evidence"].Obj? && "event" in j.fields["evidence"].fields then
      Extract(j.fields["evidence"].fields["event"])
    else if DoneEnvelope(j).Some? && Payloads(DoneEnvelope(j).value).Some? then
      Payloads(DoneEnvelope(j).value).value
    else if DoneEnvelope(j).Some? && "event" in DoneEnvelope(j).value.fields then
      Extract(j.fields["done"].fields["evidence"].fields["event"])
    else if !LooksLikeSidecar(j.fields) && Payloads(j).Some? then
      Payloads(j).value
    else if !LooksLikeSidecar(j.fields) && "event" in j.fields then
      Extract(j.fields["event"])
    else
      FromEvents(j)
  }

  function DoneEnvelope(j: Json): (e: Option<Json>)
    ensures e.Some? ==> j.Obj? && "done" in j.fields && j.fields["done"].Obj? && "evidence" in j.fields["done"].fields
                        && e.value == j.fields["done"].fields["evidence"] && e.value.Obj?
  {
    Record(Get(Record(Get(Some(j), "done")), "evidence"))
  }

  // ---------- The gate's view of a result ----------

  predicate HasEnvelopeKey(envelope: Json) {
    envelope.Obj? && ("coderEvidence" in envelope.fields || "reviewerEvidence" in envelope.fields || "event" in envelope.fields)
  }

  /** Where the gate looks: a sidecar that could be read shuts out the result details; on each only two places count. */
  function Authority(sidecar: Option<Json>, details: Option<Json>): Option<Json> {
    if sidecar.Some? then
      if Record(Get(sidecar, "evidence")).Some? then Record(Get(sidecar, "evidence")) else DoneEnvelope(sidecar.value)
    else if details.None? then None
    else
      var envelope := Record(Get(details, "evidence"));
      if envelope.Some? && HasEnvelopeKey(envelope.value) then envelope
      else
        var done := DoneEnvelope(details.value);
        if done.Some? && HasEnvelopeKey(done.value) then done else None
  }

  function GateExtraction(sidecar: Option<Json>, details: Option<Json>): Extraction {
    var envelope := Authority(sidecar, details);
    if envelope.Some? then Extract(envelope.value) else NOTHING
  }

  // ---------- Non-interference ----------

  predicate SameAt(a: map<string, Json>, b: map<string, Json>, key: string) {
    (key in a <==> key in b) && (key in a ==> a[key] == b[key])
  }

  /** Two results that agree at `evidence`, and under `done` at `evidence`. */
  predicate SameEvidence(a: Json, b: Json) {
    && a.Obj? && b.Obj? && SameAt(a.fields, b.fields, "evidence")
    && DoneEnvelope(a) == DoneEnvelope(b)
  }

  /**
   * Everything outside the evidence locations is ignored: top-level `coderEvidence`, summaries, histories, anything
   * under `done` beside its `evidence`, and, once there is a sidecar, all of the result details.
   */
  lemma OnlyTheEnvelopeCounts(s: Json, t: Json, details: Option<Json>, other: Option<Json>)
    requires SameEvidence(s, t)
    ensures GateExtraction(Some(s), details) == GateExtraction(Some(t), other)
    ensures GateExtraction(None, Some(s)) == GateExtraction(None, Some(t))
  {
    assert Get(Some(s), "evidence") == Get(Some(t), "evidence");
    hide Extract, DoneEnvelope;
  }

  /** Adding or dropping any legacy field of a sidecar changes nothing. */
  lemma LegacyFieldsAreIgnored(fields: map<string, Json>, key: string, value: Json, details: Option<Json>)
    requires key != "evidence" && key != "done"
    ensures GateExtraction(Some(Obj(fields[key := value])), details) == GateExtraction(Some(Obj(fields)), details)
  {
    var a, b := Obj(fields[key := value]), Obj(fields);
    assert Get(Some(a), "done") == Get(Some(b), "done");
    assert SameEvidence(a, b);
    OnlyTheEnvelopeCounts(a, b, details, details);
    hide GateExtraction, SameEvidence;
  }

  /** A sidecar without an envelope closes the gate even when the details hold canonical evidence. */
  lemma SidecarShutsOutDetails(sidecar: Json, details: Option<Json>)
    requires Authority(Some(sidecar), None).None?
    ensures GateExtraction(Some(sidecar), details) == NOTHING
  {
    hide Extract;
  }

  // ---------- Legacy events among canonical ones ----------

  predicate LegacyEvent(e: Json) {
    IsEvent(e) && !HasString(e, "provenance", "canonical")
  }

  lemma {:induction false} LegacyEventsHaveNoPayload(a: seq<Json>, e: Json, b: seq<Json>, kind: string)
    requires LegacyEvent(e)
    ensures FirstPayload(a + [e] + b, kind) == FirstPayload(a + b, kind)
  {
    if a == [] {
      assert a + [e] + b == [e] + b && a + b == b && ([e] + b)[1..] == b;
    } else {
      assert (a + [e] + b)[0] == (a + b)[0] == a[0];
      assert (a + [e] + b)[1..] == a[1..] + [e] + b && (a + b)[1..] == a[1..] + b;
      hide HasString, LegacyEvent;
      LegacyEventsHaveNoPayload(a[1..], e, b, kind);
    }
  }

  function WithEvents(fields: map<string, Json>, events: seq<Json>): Json {
    Obj(fields["events" := Arr(events)])
  }

  /** A legacy event placed anywhere in a list of events never becomes the payload and never displaces it. */
  lemma LegacyEventsAreIgnored(fields: map<string, Json>, a: seq<Json>, e: Json, b: seq<Json>)
    requires LegacyEvent(e)
    ensures Extract(WithEvents(fields, a + [e] + b)).coder == Extract(WithEvents(fields, a + b)).coder
    ensures Extract(WithEvents(fields, a + [e] + b)).reviewer == Extract(WithEvents(fields, a + b)).reviewer
  {
    EventsOnlyMatterLast(fields, a + [e] + b, a + b);
    FromEventsIgnores(fields, a, e, b);
    hide Extract, FromEvents;
  }

  lemma EventsOnlyMatterLast(fields: map<string, Json>, x: seq<Json>, y: seq<Json>)
    ensures Extract(WithEvents(fields, x)) == Extract(WithEvents(fields, y))
            || (Extract(WithEvents(fields, x)) == FromEvents(WithEvents(fields, x)) && Extract(WithEvents(fields, y)) == FromEvents(WithEvents(fields, y)))
  {
    var s, t := WithEvents(fields, x), WithEvents(fields, y);
    assert Payloads(s) == Payloads(t) by {
      hide Texts;
    }
    assert DoneEnvelope(s) == DoneEnvelope(t);
    SidecarLooksTheSame(fields, x, y);
    hide FromEvents, Payloads, LooksLikeSidecar, DoneEnvelope;
  }

  lemma SidecarLooksTheSame(fields: map<string, Json>, x: seq<Json>, y: seq<Json>)
    ensures LooksLikeSidecar(WithEvents(fields, x).fields) == LooksLikeSidecar(WithEvents(fields, y).fields)
  {
    assert "events" !in SIDECAR_MARKERS;
    hide SIDECAR_MARKERS;
  }

  lemma ShapeIgnores(fields: map<string, Json>, a: seq<Json>, e: Json, b: seq<Json>)
    requires IsEvent(e)
    ensures LedgerShaped(WithEvents(fields, a + [e] + b)) == LedgerShaped(WithEvents(fields, a + b))
  {
    hide IsEvent;
    var x, y := a + [e] + b, a + b;
    if LedgerShaped(WithEvents(fields, x)) {
      forall i | 0 <= i < |y|
        ensures IsEvent(y[i])
      {
        assert y[i] == x[if i < |a| then i else i + 1];
      }
    }
    if LedgerShaped(WithEvents(fields, y)) {
      forall i | 0 <= i < |x|
        ensures IsEvent(x[i])
      {
        assert x[i] == if i < |a| then y[i] else if i == |a| then e else y[i - 1];
      }
    }
  }

  lemma FromEventsIgnores(fields: map<string, Json>, a: seq<Json>, e: Json, b: seq<Json>)
    requires LegacyEvent(e)
    ensures FromEvents(WithEvents(fields, a + [e] + b)).coder == FromEvents(WithEvents(fields, a + b)).coder
    ensures FromEvents(WithEvents(fields, a + [e] + b)).reviewer == FromEvents(WithEvents(fields, a + b)).reviewer
  {
    ShapeIgnores(fields, a, e, b);
    LegacyEventsHaveNoPayload(a, e, b, "coder_evidence");
    LegacyEventsHaveNoPayload(a, e, b, "reviewer_evidence");
    SamePayloads(fields, a + [e] + b, a + b);
    hide FromEvents, LedgerShaped, FirstPayload, LegacyEvent, WithEvents;
  }

  lemma SamePayloads(fields: map<string, Json>, x: seq<Json>, y: seq<Json>)
    requires LedgerShaped(WithEvents(fields, x)) == LedgerShaped(WithEvents(fields, y))
    requires FirstPayload(x, "coder_evidence") == FirstPayload(y, "coder_evidence")
    requires FirstPayload(x, "reviewer_evidence") == FirstPayload(y, "reviewer_evidence")
    ensures FromEvents(WithEvents(fields, x)).coder == FromEvents(WithEvents(fields, y)).coder
    ensures FromEvents(WithEvents(fields, x)).reviewer == FromEvents(WithEvents(fields, y)).reviewer
  {
    hide FirstPayload, EventWarnings, TextsOf, Distinct;
    var s, t := WithEvents(fields, x), WithEvents(fields, y);
    assert Get(Some(s), "kind") == Get(Some(t), "kind") && Get(Some(s), "provenance") == Get(Some(t), "provenance") && Get(Some(s), "payload") == Get(Some(t), "payload");
    hide LedgerShaped;
  }

  /** The record with a value put under a key. */
  function At(fields: map<string, Json>, key: string, value: Json): Json {
    Obj(fields[key := value])
  }

  /** The same for a ledger handed over as the envelope's `event`. */
  lemma LegacyEventsUnderEventAreIgnored(envelope: map<string, Json>, fields: map<string, Json>, a: seq<Json>, e: Json, b: seq<Json>)
    requires LegacyEvent(e)
    ensures Extract(At(envelope, "event", WithEvents(fields, a + [e] + b))).coder == Extract(At(envelope, "event", WithEvents(fields, a + b))).coder
    ensures Extract(At(envelope, "event", WithEvents(fields, a + [e] + b))).reviewer == Extract(At(envelope, "event", WithEvents(fields, a + b))).reviewer
  {
    LegacyEventsAreIgnored(fields, a, e, b);
    EventIsReadLast(envelope, WithEvents(fields, a + [e] + b));
    EventIsReadLast(envelope, WithEvents(fields, a + b));
    hide Extract, WithEvents, At, BesideEvent;
  }

  /** What a record gives without its `event`, unless that is where it looks. */
  function BesideEvent(r: map<string, Json>): Option<Extraction> {
    var (evidence, done) := (Record(Get(Some(Obj(r)), "evidence")), DoneEnvelope(Obj(r)));
    if evidence.Some? && Payloads(evidence.value).Some? then Payloads(evidence.value)
    else if Get(evidence, "event").Some? then Some(Extract(Get(evidence, "event").value))
    else if done.Some? && Payloads(done.value).Some? then Payloads(done.value)
    else if Get(done, "event").Some? then Some(Extract(Get(done, "event").value))
    else if LooksLikeSidecar(r) then Some(FromEvents(Obj(r)))
    else Payloads(Obj(r))
  }

  lemma OtherKeysStay(r: map<string, Json>, x: Json)
    ensures var j := At(r, "event", x);
            && LooksLikeSidecar(j.fields) == LooksLikeSidecar(r) && DoneEnvelope(j) == DoneEnvelope(Obj(r))
            && Payloads(j) == Payloads(Obj(r)) && Record(Get(Some(j), "evidence")) == Record(Get(Some(Obj(r)), "evidence"))
  {
  }

  lemma EventsStay(r: map<string, Json>, x: Json)
    ensures FromEvents(At(r, "event", x)) == FromEvents(Obj(r))
  {
    hide FirstPayload, EventWarnings, Texts;
  }

  lemma EventIsReadLast(r: map<string, Json>, x: Json)
    ensures Extract(At(r, "event", x)) == if BesideEvent(r).Some? then BesideEvent(r).value else Extract(x)
  {
    OtherKeysStay(r, x);
    EventsStay(r, x);
    hide LooksLikeSidecar, DoneEnvelope, Payloads, FromEvents;
  }

  /** Typed payloads are only ever found together with canonical provenance. */
  lemma {:induction false} PayloadsAreCanonical(j: Json)
    ensures Extract(j).coder.Some? || Extract(j).reviewer.Some? ==> Extract(j).canonical
    decreases j
  {
    hide LooksLikeSidecar, EventWarnings, FirstPayload, Texts;
    if j.Obj? {
      if "evidence" in j.fields && j.fields["evidence"].Obj? && "event" in j.fields["evidence"].fields {
        PayloadsAreCanonical(j.fields["evidence"].fields["event"]);
      }
      if DoneEnvelope(j).Some? && "event" in DoneEnvelope(j).value.fields {
        PayloadsAreCanonical(j.fields["done"].fields["evidence"].fields["event"]);
      }
      if "event" in j.fields {
        PayloadsAreCanonical(j.fields["event"]);
      }
    }
  }

  // ---------- Where legacy material does get in the way ----------

  /** Nothing in the record but, possibly, a list of events: no envelope of its own, no payload, no single event. */
  predicate OnlyEvents(fields: map<string, Json>) {
    && "evidence" !in fields && "done" !in fields && "event" !in fields && "coderEvidence" !in fields && "reviewerEvidence" !in fields
    && !HasString(Obj(fields), "kind", "coder_evidence") && !HasString(Obj(fields), "kind", "reviewer_evidence")
  }

  lemma OnlyEventsAreRead(fields: map<string, Json>, events: seq<Json>)
    requires OnlyEvents(fields)
    ensures Extract(WithEvents(fields, events)) == FromEvents(WithEvents(fields, events))
  {
    hide LooksLikeSidecar, FromEvents;
    assert DoneEnvelope(WithEvents(fields, events)).None?;
  }

  lemma LedgerOrNothing(fields: map<string, Json>, events: seq<Json>)
    requires !HasString(Obj(fields), "kind", "coder_evidence") && !HasString(Obj(fields), "kind", "reviewer_evidence")
    ensures var found := FromEvents(WithEvents(fields, events));
            if (forall i :: 0 <= i < |events| ==> IsEvent(events[i]))
               && (FirstPayload(events, "coder_evidence").Some? || FirstPayload(events, "reviewer_evidence").Some?)
            then found.canonical else found == NOTHING
  {
    hide IsEvent, FirstPayload, EventWarnings, Distinct;
    var s := WithEvents(fields, events);
    assert Get(Some(s), "kind") == Get(Some(Obj(fields)), "kind");
    assert s.fields["events"].items == events;
  }

  /**
   * When a list of events counts: exactly when every entry, legacy ones included, has a textual kind and some canonical event has a
   * payload. Otherwise the extraction finds nothing at all.
   */
  lemma LedgerIsReadIff(fields: map<string, Json>, events: seq<Json>)
    requires OnlyEvents(fields)
    ensures var found := Extract(WithEvents(fields, events));
            && (found.canonical <==>
                  (forall i :: 0 <= i < |events| ==> IsEvent(events[i]))
                  && (FirstPayload(events, "coder_evidence").Some? || FirstPayload(events, "reviewer_evidence").Some?))
            && (!found.canonical ==> found == NOTHING)
  {
    OnlyEventsAreRead(fields, events);
    LedgerOrNothing(fields, events);
    hide Extract, FromEvents, IsEvent, FirstPayload;
  }

  /** One entry of the list without a textual kind, and the gate finds nothing, wherever the canonical events stand. */
  lemma MalformedEventHidesTheLedger(top: map<string, Json>, fields: map<string, Json>, a: seq<Json>, e: Json, b: seq<Json>, details: Option<Json>)
    requires !IsEvent(e) && OnlyEvents(fields)
    ensures Extract(WithEvents(fields, a + [e] + b)) == NOTHING
    ensures GateExtraction(Some(At(top, "evidence", WithEvents(fields, a + [e] + b))), details) == NOTHING
  {
    hide IsEvent, OnlyEvents, Extract;
    LedgerIsReadIff(fields, a + [e] + b);
    assert (a + [e] + b)[|a|] == e;
    EnvelopeIsRead(top, WithEvents(fields, a + [e] + b), details);
  }

  /** An envelope that does not point elsewhere gives its own payloads, unless a sidecar marker stands in it. */
  lemma MarkersDecide(fields: map<string, Json>)
    requires DoneEnvelope(Obj(fields)).None? && Record(Get(Some(Obj(fields)), "evidence")).None?
    ensures LooksLikeSidecar(fields) ==> Extract(Obj(fields)) == FromEvents(Obj(fields))
    ensures !LooksLikeSidecar(fields) && Payloads(Obj(fields)).Some? ==> Extract(Obj(fields)) == Payloads(Obj(fields)).value
  {
    hide LooksLikeSidecar, DoneEnvelope, Payloads, FromEvents;
  }

  /** Whether an envelope's own payloads are read, by the extraction and by the gate: exactly when no sidecar marker stands in the envelope. */
  lemma MarkerInsideTheEnvelopeHidesIt(top: map<string, Json>, fields: map<string, Json>, details: Option<Json>)
    requires "evidence" !in fields && "done" !in fields && "kind" !in fields && "events" !in fields
    ensures "coderEvidence" in fields || "reviewerEvidence" in fields ==> (Extract(Obj(fields)).canonical <==> !LooksLikeSidecar(fields))
    ensures LooksLikeSidecar(fields) ==> Extract(Obj(fields)) == NOTHING
    ensures GateExtraction(Some(At(top, "evidence", Obj(fields))), details) == Extract(Obj(fields))
  {
    MarkersDecide(fields);
    EnvelopeIsRead(top, Obj(fields), details);
    hide LooksLikeSidecar, Extract, Texts;
  }

  /** The gate reads what stands under `evidence` of the sidecar. */
  lemma EnvelopeIsRead(top: map<string, Json>, envelope: Json, details: Option<Json>)
    requires envelope.Obj?
    ensures GateExtraction(Some(At(top, "evidence", envelope)), details) == Extract(envelope)
    ensures HasEnvelopeKey(envelope) ==> GateExtraction(None, Some(At(top, "evidence", envelope))) == Extract(envelope)
  {
    hide Extract;
  }

  /** A single event of legacy provenance that carries its own evidence fields is read as canonical: exactly those fields let it through. */
  lemma LegacySingleEventIff(e: Json)
    requires LegacyEvent(e) && !LooksLikeSidecar(e.fields) && "evidence" !in e.fields && "event" !in e.fields && "events" !in e.fields
    ensures Extract(e).canonical <==> "coderEvidence" in e.fields || "reviewerEvidence" in e.fields
  {
    assert "done" in SIDECAR_MARKERS;
    hide SIDECAR_MARKERS, TextsOf;
    assert "done" !in e.fields;
    assert DoneEnvelope(e).None?;
  }
}
