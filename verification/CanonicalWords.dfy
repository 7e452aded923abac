/** Which payload the extraction finds: the keys and words of the JSON that lead to it, place by place. */
module CanonicalWords {
  import opened Js
  import opened Json
  import opened CanonicalEvidence

  /** An object with payloads of its own. */
  predicate Offers(envelope: Option<Json>) {
    envelope.Some? && envelope.value.Obj? && ("coderEvidence" in envelope.value.fields || "reviewerEvidence" in envelope.value.fields)
  }

  /** What is found is what stands under the two keys of the envelope. */
  predicate IsFrom(found: Extraction, envelope: Option<Json>) {
    && found.canonical && found.coder == Get(envelope, "coderEvidence") && found.reviewer == Get(envelope, "reviewerEvidence")
    && found.warnings == Texts(Get(envelope, "warnings"))
  }

  lemma OfferedPayloads(envelope: Json)
    requires Offers(Some(envelope))
    ensures Payloads(envelope).Some? && IsFrom(Payloads(envelope).value, Some(envelope))
  {
    hide Texts;
  }

  lemma NothingOffered(envelope: Json)
    requires !Offers(Some(envelope))
    ensures Payloads(envelope).None?
  {
  }

  /**
   * Where an object that is no single event and no ledger is read: at its `evidence`, then at its `done.evidence`, then, unless a sidecar marker
   * stands in it, at itself; in each place the payloads come first and an `event` is followed. The first place that has either decides.
   */
  lemma PlacesInOrder(j: Json)
    requires j.Obj?
    ensures var (evidence, done) := (Get(Some(j), "evidence"), Get(Get(Some(j), "done"), "evidence"));
            var (eventThere, doneEvent) := (Get(evidence, "event"), Get(done, "event"));
            if Offers(evidence) then IsFrom(Extract(j), evidence)
            else if eventThere.Some? then Extract(j) == Extract(eventThere.value)
            else if Offers(done) then IsFrom(Extract(j), done)
            else if doneEvent.Some? then Extract(j) == Extract(doneEvent.value)
            else if LooksLikeSidecar(j.fields) then Extract(j) == FromEvents(j)
            else if Offers(Some(j)) then IsFrom(Extract(j), Some(j))
            else if "event" in j.fields then Extract(j) == Extract(j.fields["event"])
            else Extract(j) == FromEvents(j)
  {
    var (evidence, done) := (Get(Some(j), "evidence"), Get(Get(Some(j), "done"), "evidence"));
    PayloadsIff(j);
    if evidence.Some? {
      PayloadsIff(evidence.value);
    }
    if done.Some? {
      PayloadsIff(done.value);
    }
    DoneIs(j);
    hide FromEvents, LooksLikeSidecar, Payloads, Offers, IsFrom, DoneEnvelope, Texts;
    NotObjectOffersNothing(evidence);
    NotObjectOffersNothing(done);
  }

  lemma PayloadsIff(envelope: Json)
    ensures Payloads(envelope).Some? <==> Offers(Some(envelope))
    ensures Payloads(envelope).Some? ==> IsFrom(Payloads(envelope).value, Some(envelope))
  {
    if Offers(Some(envelope)) {
      OfferedPayloads(envelope);
    } else {
      NothingOffered(envelope);
    }
  }

  lemma NotObjectOffersNothing(envelope: Option<Json>)
    ensures Offers(envelope) ==> envelope.Some? && envelope.value.Obj?
  {
  }

  lemma DoneIs(j: Json)
    ensures DoneEnvelope(j) == Record(Get(Get(Some(j), "done"), "evidence"))
  {
  }

  // ---------- Events ----------

  predicate SaysKind(e: Json, kind: string) {
    Get(Some(e), "kind") == Some(Str(kind))
  }

  predicate SaysCanonical(e: Json) {
    Get(Some(e), "provenance") == Some(Str("canonical"))
  }

  /** A single event gives its payload, under the name of its kind, exactly when its provenance is the word `canonical`. */
  lemma SingleEvents(e: Json)
    ensures SaysKind(e, "coder_evidence") ==>
              if SaysCanonical(e) then FromEvents(e).canonical && FromEvents(e).coder == Get(Some(e), "payload") && FromEvents(e).reviewer == None
              else FromEvents(e) == NOTHING
    ensures SaysKind(e, "reviewer_evidence") ==>
              if SaysCanonical(e) then FromEvents(e).canonical && FromEvents(e).reviewer == Get(Some(e), "payload") && FromEvents(e).coder == None
              else FromEvents(e) == NOTHING
  {
    hide Texts, LedgerShaped;
    assert Str("coder_evidence") != Str("reviewer_evidence") by {
      assert |"coder_evidence"| != |"reviewer_evidence"|;
    }
  }

  /** The first canonical event of a kind. */
  ghost predicate FirstOf(events: seq<Json>, kind: string, i: int) {
    && 0 <= i < |events| && SaysKind(events[i], kind) && SaysCanonical(events[i])
    && forall j :: 0 <= j < i ==> !(SaysKind(events[j], kind) && SaysCanonical(events[j]))
  }

  /** The payload of a list is that of its first canonical event of the kind, if it has one. */
  ghost predicate IsPayload(events: seq<Json>, kind: string, payload: Option<Json>) {
    if exists i :: FirstOf(events, kind, i) then exists i :: FirstOf(events, kind, i) && payload == Get(Some(events[i]), "payload")
    else payload == None
  }

  lemma {:induction false} FirstPayloadIs(events: seq<Json>, kind: string)
    ensures IsPayload(events, kind, FirstPayload(events, kind))
  {
    hide SaysKind, SaysCanonical;
    if events == [] {
    } else if HasString(events[0], "kind", kind) && HasString(events[0], "provenance", "canonical") {
      WordsOf(events[0], kind);
      assert FirstOf(events, kind, 0);
    } else {
      WordsOf(events[0], kind);
      FirstPayloadIs(events[1..], kind);
      forall i
        ensures FirstOf(events, kind, i) <==> FirstOf(events[1..], kind, i - 1)
      {
        FirstShifts(events, kind, i);
      }
      hide FirstOf;
      if i :| FirstOf(events[1..], kind, i) {
        assert FirstOf(events, kind, i + 1);
      }
      LaterPayload(events, kind, FirstPayload(events[1..], kind));
    }
  }

  lemma WordsOf(e: Json, kind: string)
    ensures HasString(e, "kind", kind) <==> SaysKind(e, kind)
    ensures HasString(e, "provenance", "canonical") <==> SaysCanonical(e)
  {
  }

  lemma FirstShifts(events: seq<Json>, kind: string, i: int)
    requires events != [] && !(SaysKind(events[0], kind) && SaysCanonical(events[0]))
    ensures FirstOf(events, kind, i) <==> FirstOf(events[1..], kind, i - 1)
  {
    hide SaysKind, SaysCanonical;
    var rest := events[1..];
    if FirstOf(rest, kind, i - 1) {
      forall j | 0 <= j < i
        ensures !(SaysKind(events[j], kind) && SaysCanonical(events[j]))
      {
        assert j > 0 ==> events[j] == rest[j - 1];
      }
    }
    if FirstOf(events, kind, i) {
      assert i > 0;
      forall j | 0 <= j < i - 1
        ensures !(SaysKind(rest[j], kind) && SaysCanonical(rest[j]))
      {
        assert rest[j] == events[j + 1];
      }
    }
  }

  lemma LaterPayload(events: seq<Json>, kind: string, payload: Option<Json>)
    requires events != [] && IsPayload(events[1..], kind, payload)
    requires forall i :: FirstOf(events, kind, i) <==> FirstOf(events[1..], kind, i - 1)
    ensures IsPayload(events, kind, payload)
  {
    var rest := events[1..];
    if i :| FirstOf(rest, kind, i) && payload == Get(Some(rest[i]), "payload") {
      assert FirstOf(rest, kind, i + 1 - 1);
      assert FirstOf(events, kind, i + 1) && events[i + 1] == rest[i];
    }
  }

  /**
   * A ledger, an object with a list of events that is no single event itself: when every entry has a textual kind it gives, for coder and reviewer, the
   * payload of its first canonical event of that kind, and nothing when neither has one.
   */
  lemma LedgersSay(j: Json, events: seq<Json>)
    requires Get(Some(j), "events") == Some(Arr(events)) && !SaysKind(j, "coder_evidence") && !SaysKind(j, "reviewer_evidence")
    ensures if forall i :: 0 <= i < |events| ==> events[i].Obj? && "kind" in events[i].fields && events[i].fields["kind"].Str? then
              exists coder, reviewer ::
                && IsPayload(events, "coder_evidence", coder) && IsPayload(events, "reviewer_evidence", reviewer)
                && FromEvents(j).coder == coder && FromEvents(j).reviewer == reviewer
                && (FromEvents(j).canonical <==> coder.Some? || reviewer.Some?)
            else FromEvents(j) == NOTHING
  {
    FirstPayloadIs(events, "coder_evidence");
    FirstPayloadIs(events, "reviewer_evidence");
    hide FirstPayload, IsPayload, EventWarnings, Distinct, Texts;
  }

  // ---------- Where the gate looks ----------

  predicate IsRecord(j: Option<Json>) {
    j.Some? && j.value.Obj?
  }

  /** An envelope with payloads of its own or an `event`. */
  predicate HasEvidence(envelope: Option<Json>) {
    Offers(envelope) || Get(envelope, "event").Some?
  }

  /**
   * The gate looks at the sidecar's `evidence`, or its `done.evidence` where the former is no object. Only without a sidecar it looks at the details, in the same
   * two places, and there takes the first that has evidence. Where it finds neither it has nothing.
   */
  lemma GatePlaces(sidecar: Option<Json>, details: Option<Json>)
    ensures var (evidence, done) := (Get(sidecar, "evidence"), Get(Get(sidecar, "done"), "evidence"));
            sidecar.Some? ==>
              GateExtraction(sidecar, details)
              == if IsRecord(evidence) then Extract(evidence.value) else if IsRecord(done) then Extract(done.value) else NOTHING
    ensures var (evidence, done) := (Get(details, "evidence"), Get(Get(details, "done"), "evidence"));
            sidecar.None? ==>
              GateExtraction(sidecar, details)
              == if HasEvidence(evidence) then Extract(evidence.value) else if HasEvidence(done) then Extract(done.value) else NOTHING
  {
    if sidecar.Some? {
      DoneIs(sidecar.value);
    }
    if details.Some? {
      DoneIs(details.value);
    }
    hide Extract, DoneEnvelope;
  }
}
