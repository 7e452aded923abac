/** The coder gate on the payload as it stands in the envelope: which words of the JSON open it. */
module GatePayload {
  import opened Js
  import opened Json
  import Matrix = EvidenceMatrix
  import opened CanonicalEvidence
  import opened CoderGate

  // ---------- The words ----------

  function Word(o: Json, key: string): string {
    var v := Get(Some(o), key);
    if v.Some? && v.value.Str? then v.value.s else ""
  }

  predicate KnownKind(w: string) {
    RunnableWord(w) || WeakWord(w) || PeopleWord(w)
    || w == "static-check" || w == "diff" || w == "artifact" || w == "skipped"
  }

  predicate RunnableWord(w: string) {
    w == "runnable-check" || w == "behavior-test" || w == "runtime-gate" || w == "regression-test" || w == "unit-test"
  }

  predicate WeakWord(w: string) {
    w == "prompt-only" || w == "static-only" || w == "source-string"
  }

  predicate PeopleWord(w: string) {
    w == "reviewer-approval" || w == "manual-validation"
  }

  predicate KnownStrength(w: string) {
    w == "sufficient" || w == "manual-caveat" || w == "weak" || w == "insufficient" || w == "skipped"
  }

  function StrengthOrder(w: string): nat {
    if w == "sufficient" then 4 else if w == "manual-caveat" then 3 else if w == "weak" then 2 else if w == "insufficient" then 1 else 0
  }

  /** The outcome a command record states; `result` is read where `outcome` is absent or null. */
  function Stated(o: Json): Option<Json> {
    var outcome := Get(Some(o), "outcome");
    if outcome.None? || outcome.value.Null? then Get(Some(o), "result") else outcome
  }

  predicate IsOutcome(j: Option<Json>) {
    j == Some(Str("passed")) || j == Some(Str("failed")) || j == Some(Str("skipped"))
  }

  /** A well-formed record of a command's run. */
  predicate IsRun(o: Json) {
    Text(Get(Some(o), "command")) != "" && IsOutcome(Stated(o))
  }

  predicate IsRunOf(o: Json, command: string) {
    IsRun(o) && Text(Get(Some(o), "command")) == command
  }

  ghost predicate LastRunOf(runs: seq<Json>, command: string, i: int) {
    0 <= i < |runs| && IsRunOf(runs[i], command) && forall j :: i < j < |runs| ==> !IsRunOf(runs[j], command)
  }

  /** The last well-formed record of the command states this outcome. */
  ghost predicate LastRan(runs: seq<Json>, command: string, outcome: string) {
    exists i :: LastRunOf(runs, command, i) && Stated(runs[i]) == Some(Str(outcome))
  }

  /** A well-formed coverage row. */
  predicate IsCoverage(o: Json) {
    Text(Get(Some(o), "criterion")) != "" && KnownKind(Word(o, "evidenceKind")) && KnownStrength(Word(o, "strength"))
    && Text(Get(Some(o), "summary")) != ""
  }

  predicate IsCoverageOf(o: Json, criterion: string) {
    IsCoverage(o) && Text(Get(Some(o), "criterion")) == criterion
  }

  function Order(o: Json): nat {
    StrengthOrder(Word(o, "strength"))
  }

  /** The well-formed row of a criterion that decides: the strongest, and the first of equally strong ones. */
  ghost predicate Decides(rows: seq<Json>, criterion: string, i: int) {
    && 0 <= i < |rows| && IsCoverageOf(rows[i], criterion)
    && (forall j :: 0 <= j < |rows| && IsCoverageOf(rows[j], criterion) ==>
          Order(rows[j]) <= Order(rows[i]) && (j < i ==> Order(rows[j]) < Order(rows[i])))
  }

  // ---------- What the payload must say ----------

  predicate AsksForRun(e: Matrix.Entry) {
    exists i :: 0 <= i < |e.evidence| && e.evidence[i].kind in {Matrix.BehaviorTest, Matrix.RuntimeGateTest, Matrix.RegressionTest, Matrix.UnitTest}
  }

  predicate AsksForPeople(e: Matrix.Entry) {
    forall i :: 0 <= i < |e.evidence| ==> e.evidence[i].kind in {Matrix.ReviewerApproval, Matrix.ManualValidation}
  }

  /** Some command the row names last passed, and none last failed or was skipped. */
  ghost predicate NamesCleanRuns(row: Json, runs: seq<Json>) {
    var names := Texts(Get(Some(row), "supportingCommands"));
    && (exists i :: 0 <= i < |names| && LastRan(runs, names[i], "passed"))
    && (forall i :: 0 <= i < |names| ==> !LastRan(runs, names[i], "failed") && !LastRan(runs, names[i], "skipped"))
  }

  predicate IsSufficient(row: Json) {
    Get(Some(row), "strength") == Some(Str("sufficient"))
  }

  predicate IsManual(row: Json) {
    Get(Some(row), "strength") == Some(Str("manual-caveat"))
  }

  ghost predicate Meets(e: Matrix.Entry, row: Json, runs: seq<Json>) {
    var kind := Word(row, "evidenceKind");
    if AsksForRun(e) then RunnableWord(kind) && IsSufficient(row) && NamesCleanRuns(row, runs)
    else if AsksForPeople(e) then PeopleWord(kind) && (IsSufficient(row) || IsManual(row)) && Text(Get(Some(row), "caveats")) != ""
    else (IsSufficient(row) || IsManual(row)) && !WeakWord(kind)
  }

  predicate Flagged(payload: Json, key: string) {
    Get(Get(Some(payload), "delegateHistory"), key) == Some(Bool(true))
  }

  /** A payload on which a matrix-gated plan advances. */
  ghost predicate Advances(matrix: seq<Matrix.Entry>, payload: Json, source: Source, requireFilesAndCommands: bool) {
    var runs, rows := Items(Get(Some(payload), "commandsRun")), Items(Get(Some(payload), "criterionCoverage"));
    && (source.NoSource? || source.Explicit?)
    && !Flagged(payload, "autoExitObserved") && !Flagged(payload, "processExitObserved")
    && !Flagged(payload, "missingSidecarObserved") && !Flagged(payload, "freeFormOnlyObserved")
    && (requireFilesAndCommands ==> Texts(Get(Some(payload), "filesChanged")) != [] && exists i :: 0 <= i < |runs| && IsRun(runs[i]))
    && (exists i :: 0 <= i < |rows| && IsCoverage(rows[i]))
    && (forall n :: 0 <= n < |matrix| ==> exists i :: Decides(rows, matrix[n].criterion, i) && Meets(matrix[n], rows[i], runs))
  }

  // ---------- Reading one object ----------

  lemma OutcomeWords(j: Option<Json>)
    ensures OutcomeNamed(j).Some? <==> IsOutcome(j)
    ensures OutcomeNamed(j) == Some(Passed) <==> j == Some(Str("passed"))
    ensures OutcomeNamed(j) == Some(Failed) <==> j == Some(Str("failed"))
    ensures OutcomeNamed(j) == Some(NotRun) <==> j == Some(Str("skipped"))
  {
  }

  lemma CommandIsRead(o: Json)
    ensures ReadCommand(o).Some? <==> IsRun(o)
    ensures IsRun(o) ==> (
      var c := ReadCommand(o).value;
      && c.text == Text(Get(Some(o), "command"))
      && (c.outcome.Passed? <==> Stated(o) == Some(Str("passed")))
      && (c.outcome.Failed? <==> Stated(o) == Some(Str("failed")))
      && (c.outcome.NotRun? <==> Stated(o) == Some(Str("skipped"))))
  {
    OutcomeWords(Stated(o));
    hide OutcomeNamed, Text, IsOutcome;
  }

  lemma StrengthWords(o: Json)
    ensures var s := StrengthNamed(Get(Some(o), "strength"));
            && (s.Some? <==> KnownStrength(Word(o, "strength")))
            && (s.Some? ==> Rank(s.value) == Order(o))
            && (s == Some(Sufficient) <==> IsSufficient(o))
            && (s == Some(ManualCaveat) <==> IsManual(o))
  {
  }

  lemma KindIsKnown(o: Json)
    ensures EvidenceKindNamed(Get(Some(o), "evidenceKind")).Some? <==> KnownKind(Word(o, "evidenceKind"))
  {
  }

  lemma KindGroups(o: Json)
    ensures var (k, w) := (EvidenceKindNamed(Get(Some(o), "evidenceKind")), Word(o, "evidenceKind"));
            k.Some? ==>
              && (IsRunnable(k.value) <==> RunnableWord(w)) && (IsWeak(k.value) <==> WeakWord(w))
              && (k.value.ReviewerApproval? || k.value.ManualValidation? <==> PeopleWord(w))
  {
  }

  lemma CoverageIsRead(o: Json)
    ensures ReadRow(o).Some? <==> IsCoverage(o)
    ensures IsCoverage(o) ==> (
      var (r, kind) := (ReadRow(o).value, Word(o, "evidenceKind"));
      && r.criterion == Text(Get(Some(o), "criterion"))
      && (IsRunnable(r.kind) <==> RunnableWord(kind)) && (IsWeak(r.kind) <==> WeakWord(kind))
      && (r.kind.ReviewerApproval? || r.kind.ManualValidation? <==> PeopleWord(kind))
      && Rank(r.strength) == Order(o)
      && (r.strength.Sufficient? <==> IsSufficient(o)) && (r.strength.ManualCaveat? <==> IsManual(o))
      && r.commands == Texts(Get(Some(o), "supportingCommands")) && r.caveats == Text(Get(Some(o), "caveats")))
  {
    StrengthWords(o);
    KindIsKnown(o);
    KindGroups(o);
    hide StrengthNamed, EvidenceKindNamed, Text, Texts, KnownStrength, KnownKind, RunnableWord, WeakWord, PeopleWord, IsRunnable, IsWeak, Rank,
      StrengthOrder, Word, IsSufficient, IsManual;
  }

  // ---------- The last run of a command ----------

  /** What a command last did, in the words of its last well-formed record. */
  lemma {:induction false} LastRecordIsRead(runs: seq<Json>, command: string)
    ensures LastOutcome(ReadCommands(runs), command) == Some(Passed) <==> LastRan(runs, command, "passed")
    ensures LastOutcome(ReadCommands(runs), command) == Some(Failed) <==> LastRan(runs, command, "failed")
    ensures LastOutcome(ReadCommands(runs), command) == Some(NotRun) <==> LastRan(runs, command, "skipped")
  {
    if runs == [] {
    } else {
      var n := |runs| - 1;
      LastRecordIsRead(runs[..n], command);
      CommandIsRead(runs[n]);
      OneMoreRun(runs, command, "passed");
      OneMoreRun(runs, command, "failed");
      OneMoreRun(runs, command, "skipped");
      OneMoreRead(runs, command);
      hide ReadCommand, ReadCommands, LastOutcome, LastRan, IsRun, Stated;
    }
  }

  lemma OneMoreRead(runs: seq<Json>, command: string)
    requires runs != []
    ensures var (n, c) := (|runs| - 1, ReadCommand(runs[|runs| - 1]));
            LastOutcome(ReadCommands(runs), command)
            == if c.Some? && c.value.text == command then Some(c.value.outcome) else LastOutcome(ReadCommands(runs[..n]), command)
  {
    hide ReadCommand;
    var n := |runs| - 1;
    assert ReadCommands(runs[..n]) + [] == ReadCommands(runs[..n]);
    if ReadCommand(runs[n]).Some? {
      OneMoreRecord(ReadCommands(runs[..n]), ReadCommand(runs[n]).value, command);
    }
  }

  lemma OneMoreRun(runs: seq<Json>, command: string, outcome: string)
    requires runs != []
    ensures var n := |runs| - 1;
            LastRan(runs, command, outcome)
            <==> if IsRunOf(runs[n], command) then Stated(runs[n]) == Some(Str(outcome)) else LastRan(runs[..n], command, outcome)
  {
    hide IsRunOf, Stated;
    var n := |runs| - 1;
    if IsRunOf(runs[n], command) {
      assert LastRunOf(runs, command, n);
    } else {
      if i :| LastRunOf(runs, command, i) && Stated(runs[i]) == Some(Str(outcome)) {
        assert LastRunOf(runs[..n], command, i);
      }
      if i :| LastRunOf(runs[..n], command, i) && Stated(runs[..n][i]) == Some(Str(outcome)) {
        assert LastRunOf(runs, command, i);
      }
    }
  }

  // ---------- The deciding row ----------

  /** `places` are the places of the well-formed rows, in order. */
  predicate ArePlaces(items: seq<Json>, rows: seq<Row>, places: seq<int>) {
    && |places| == |rows|
    && (forall k :: 0 <= k < |places| ==> 0 <= places[k] < |items| && ReadRow(items[places[k]]) == Some(rows[k]))
    && (forall j, k :: 0 <= j < k < |places| ==> places[j] < places[k])
    && (forall i :: 0 <= i < |items| && ReadRow(items[i]).Some? ==> i in places)
  }

  function RowPlaces(items: seq<Json>): seq<int> {
    if items == [] then []
    else RowPlaces(items[..|items| - 1]) + if ReadRow(items[|items| - 1]).Some? then [|items| - 1] else []
  }

  lemma {:induction false} RowsHavePlaces(items: seq<Json>)
    ensures ArePlaces(items, ReadRows(items), RowPlaces(items))
  {
    hide ReadRow;
    if items == [] {
    } else {
      RowsHavePlaces(items[..|items| - 1]);
    }
  }

  /** What reading leaves of a row is what deciding looks at. */
  predicate AreAlike(o: Json) {
    && (ReadRow(o).Some? <==> IsCoverage(o))
    && (IsCoverage(o) ==> ReadRow(o).value.criterion == Text(Get(Some(o), "criterion")) && Rank(ReadRow(o).value.strength) == Order(o))
  }

  lemma RowsAreAlike(o: Json)
    ensures AreAlike(o)
  {
    CoverageIsRead(o);
    hide ReadRow, IsCoverage, Order, Rank, Text;
  }

  lemma DecidingRowSpeaks(items: seq<Json>, criterion: string, i: int)
    requires Decides(items, criterion, i)
    ensures exists k :: 0 <= k < |ReadRows(items)| && Speaks(ReadRows(items), criterion, k) && ReadRow(items[i]) == Some(ReadRows(items)[k])
  {
    RowsHavePlaces(items);
    var (rows, places) := (ReadRows(items), RowPlaces(items));
    forall j | 0 <= j < |items|
      ensures AreAlike(items[j])
    {
      RowsAreAlike(items[j]);
    }
    hide ReadRow, ReadRows, RowPlaces, IsCoverage, Order, Rank, Text;
    var k :| 0 <= k < |places| && places[k] == i;
    assert Speaks(rows, criterion, k);
  }

  /** No other row of the criterion outranks the place of the one that speaks. */
  lemma PlaceOutranks(items: seq<Json>, rows: seq<Row>, places: seq<int>, criterion: string, k: int, j: int)
    requires ArePlaces(items, rows, places) && Speaks(rows, criterion, k)
    requires 0 <= j < |items| && IsCoverageOf(items[j], criterion) && AreAlike(items[j]) && AreAlike(items[places[k]])
    ensures Order(items[j]) <= Order(items[places[k]]) && (j < places[k] ==> Order(items[j]) < Order(items[places[k]]))
  {
    hide ReadRow, Order, Rank, Text, IsCoverage;
    var m :| 0 <= m < |places| && places[m] == j;
    assert ReadRow(items[places[m]]) == Some(rows[m]) && ReadRow(items[places[k]]) == Some(rows[k]);
    assert rows[m].criterion == criterion && (m > k ==> places[k] < places[m]);
  }

  lemma SpeakingRowDecides(items: seq<Json>, criterion: string, k: int)
    requires Speaks(ReadRows(items), criterion, k)
    ensures exists i :: Decides(items, criterion, i) && ReadRow(items[i]) == Some(ReadRows(items)[k])
  {
    RowsHavePlaces(items);
    var (rows, places) := (ReadRows(items), RowPlaces(items));
    var i := places[k];
    RowsAreAlike(items[i]);
    hide ReadRow, ReadRows, RowPlaces, IsCoverage, Order, Rank, Text;
    forall j | 0 <= j < |items| && IsCoverageOf(items[j], criterion)
      ensures Order(items[j]) <= Order(items[i]) && (j < i ==> Order(items[j]) < Order(items[i]))
    {
      RowsAreAlike(items[j]);
      hide AreAlike, IsCoverageOf, ArePlaces, Speaks;
      PlaceOutranks(items, rows, places, criterion, k, j);
    }
    assert Decides(items, criterion, i);
  }

  // ---------- Main results ----------

  lemma AskingIsNeeding(e: Matrix.Entry)
    ensures NeedsRun(e) <==> AsksForRun(e)
    ensures NeedsPeople(e) <==> !AsksForRun(e) && AsksForPeople(e)
  {
  }

  lemma CleanRunsAreRead(o: Json, runs: seq<Json>)
    ensures RanClean(Texts(Get(Some(o), "supportingCommands")), ReadCommands(runs)) <==> NamesCleanRuns(o, runs)
  {
    hide Texts, LastOutcome, ReadCommands, LastRan;
    forall command: string
      ensures LastOutcome(ReadCommands(runs), command) == Some(Passed) <==> LastRan(runs, command, "passed")
      ensures LastOutcome(ReadCommands(runs), command) == Some(Failed) <==> LastRan(runs, command, "failed")
      ensures LastOutcome(ReadCommands(runs), command) == Some(NotRun) <==> LastRan(runs, command, "skipped")
    {
      LastRecordIsRead(runs, command);
    }
  }

  /** What judging looks at in a row that was read and in the object it was read from. */
  ghost predicate SaysTheSame(r: Row, commands: seq<Command>, o: Json, runs: seq<Json>) {
    && (IsRunnable(r.kind) <==> RunnableWord(Word(o, "evidenceKind"))) && (IsWeak(r.kind) <==> WeakWord(Word(o, "evidenceKind")))
    && (r.kind.ReviewerApproval? || r.kind.ManualValidation? <==> PeopleWord(Word(o, "evidenceKind")))
    && (r.strength.Sufficient? <==> IsSufficient(o)) && (r.strength.ManualCaveat? <==> IsManual(o))
    && r.caveats == Text(Get(Some(o), "caveats"))
    && (RanClean(r.commands, commands) <==> NamesCleanRuns(o, runs))
  }

  lemma SameWordsSameVerdict(e: Matrix.Entry, r: Row, commands: seq<Command>, o: Json, runs: seq<Json>)
    requires SaysTheSame(r, commands, o, runs)
    ensures Satisfies(e, r, commands) <==> Meets(e, o, runs)
  {
    hide IsRunnable, IsWeak, RunnableWord, WeakWord, PeopleWord, IsSufficient, IsManual, Text, Get, Word, RanClean, NamesCleanRuns,
      AsksForRun, AsksForPeople, NeedsRun;
    AskingIsNeeding(e);
    hide NeedsPeople;
  }

  lemma ReadRowSaysTheSame(o: Json, runs: seq<Json>)
    requires IsCoverage(o)
    ensures ReadRow(o).Some? && SaysTheSame(ReadRow(o).value, ReadCommands(runs), o, runs)
  {
    hide ReadRow, ReadCommands, IsCoverage, RanClean, NamesCleanRuns, IsRunnable, IsWeak, RunnableWord, WeakWord, PeopleWord, Rank, Order, Text,
      Texts, Word, IsSufficient, IsManual, Get;
    CoverageIsRead(o);
    CleanRunsAreRead(o, runs);
  }

  lemma SatisfyingIsMeeting(e: Matrix.Entry, o: Json, runs: seq<Json>)
    requires IsCoverage(o)
    ensures ReadRow(o).Some? && (Satisfies(e, ReadRow(o).value, ReadCommands(runs)) <==> Meets(e, o, runs))
  {
    hide ReadRow, ReadCommands, IsCoverage, Satisfies, Meets, SaysTheSame;
    ReadRowSaysTheSame(o, runs);
    SameWordsSameVerdict(e, ReadRow(o).value, ReadCommands(runs), o, runs);
  }

  lemma CoveredIffDecided(e: Matrix.Entry, rows: seq<Json>, runs: seq<Json>, p: Packet)
    requires p.rows == ReadRows(rows) && p.commands == ReadCommands(runs)
    ensures Covered(e, p) <==> exists i :: Decides(rows, e.criterion, i) && Meets(e, rows[i], runs)
  {
    hide ReadRow, ReadRows, ReadCommands, Speaks, Satisfies, Meets, IsCoverage;
    if k :| 0 <= k < |p.rows| && Speaks(p.rows, e.criterion, k) && Satisfies(e, p.rows[k], p.commands) {
      SpeakingRowDecides(rows, e.criterion, k);
      var i :| Decides(rows, e.criterion, i) && ReadRow(rows[i]) == Some(p.rows[k]);
      SatisfyingIsMeeting(e, rows[i], runs);
    }
    if i :| Decides(rows, e.criterion, i) && Meets(e, rows[i], runs) {
      DecidingRowSpeaks(rows, e.criterion, i);
      var k :| 0 <= k < |p.rows| && Speaks(p.rows, e.criterion, k) && ReadRow(rows[i]) == Some(p.rows[k]);
      SatisfyingIsMeeting(e, rows[i], runs);
    }
  }

  lemma {:induction false} RowsAreRead(items: seq<Json>)
    ensures ReadRows(items) != [] <==> exists i :: 0 <= i < |items| && IsCoverage(items[i])
  {
    hide ReadRow, IsCoverage;
    if items != [] {
      RowsAreRead(items[..|items| - 1]);
      CoverageIsRead(items[|items| - 1]);
    }
  }

  lemma {:induction false} RunsAreRead(items: seq<Json>)
    ensures ReadCommands(items) != [] <==> exists i :: 0 <= i < |items| && IsRun(items[i])
  {
    hide ReadCommand, IsRun;
    if items != [] {
      RunsAreRead(items[..|items| - 1]);
      CommandIsRead(items[|items| - 1]);
    }
  }

  lemma FlagsAreRead(payload: Json, source: Source, finalOutput: string)
    ensures FlagsOf(Get(Some(payload), "delegateHistory"), source, finalOutput) == Flags(false, false, false, false)
            <==> (source.NoSource? || source.Explicit?)
                 && !Flagged(payload, "autoExitObserved") && !Flagged(payload, "processExitObserved")
                 && !Flagged(payload, "missingSidecarObserved") && !Flagged(payload, "freeFormOnlyObserved")
  {
    hide Blank;
  }

  lemma AcceptedIffAdvances(matrix: seq<Matrix.Entry>, payload: Json, source: Source, finalOutput: string, require: bool)
    requires payload.Obj?
    ensures Normalize(payload, source, finalOutput).Some?
    ensures Accepted(matrix, Normalize(payload, source, finalOutput).value, require) <==> Advances(matrix, payload, source, require)
  {
    var runs, rows := Items(Get(Some(payload), "commandsRun")), Items(Get(Some(payload), "criterionCoverage"));
    var p := Normalize(payload, source, finalOutput).value;
    FlagsAreRead(payload, source, finalOutput);
    RowsAreRead(rows);
    RunsAreRead(runs);
    hide FlagsOf, ReadRows, ReadCommands, Covered, Meets, IsRun, IsCoverage, Texts, Flagged;
    forall n | 0 <= n < |matrix|
      ensures Covered(matrix[n], p) <==> exists i :: Decides(rows, matrix[n].criterion, i) && Meets(matrix[n], rows[i], runs)
    {
      CoveredIffDecided(matrix[n], rows, runs, p);
    }
  }

  /**
   * A matrix-gated plan advances exactly when the exception for lightweight work is not asked for and the canonical coder payload
   * in the envelope, as it stands there, says so in its own words.
   */
  lemma GateOpensIff(plan: Plan, run: Run, options: Options)
    requires plan.ready && plan.matrix != []
    ensures GateOpen(plan, run, options)
            <==> !options.lightweight
                 && var found := GateExtraction(run.sidecar, run.details).coder;
                    found.Some? && found.value.Obj? && Advances(plan.matrix, found.value, run.source, options.requireFilesAndCommands)
  {
    hide GateExtraction, Normalize, Accepted, Advances;
    FoundIsCanonical(run);
    var found := GateExtraction(run.sidecar, run.details).coder;
    if found.None? {
      NoCanonicalNoAdvance(plan, run, options);
    } else if found.value.Obj? {
      AcceptedIffAdvances(plan.matrix, found.value, run.source, run.finalOutput, options.requireFilesAndCommands);
    } else {
      OthersAreNotAccepted(plan.matrix, found.value, run.source, run.finalOutput, options.requireFilesAndCommands);
    }
  }

  lemma OthersAreNotAccepted(matrix: seq<Matrix.Entry>, payload: Json, source: Source, finalOutput: string, require: bool)
    requires !payload.Obj?
    ensures var p := Normalize(payload, source, finalOutput); p.None? || !Accepted(matrix, p.value, require)
  {
    hide FlagsOf;
  }

  /** The gate as it runs: extract, normalize, judge. */
  method RunGate(plan: Plan, run: Run, options: Options) returns (ok: bool)
    ensures ok == GateOpen(plan, run, options)
    ensures ok <==> (plan.ready && plan.matrix != [] ==>
                       && !options.lightweight
                       && var found := GateExtraction(run.sidecar, run.details).coder;
                          found.Some? && found.value.Obj? && Advances(plan.matrix, found.value, run.source, options.requireFilesAndCommands))
  {
    hide Advances;
    if plan.ready && plan.matrix != [] {
      GateOpensIff(plan, run, options);
    }
    var found := GateExtraction(run.sidecar, run.details);
    var input := EMPTY_PACKET;
    if found.canonical && found.coder.Some? {
      input := found.coder.value;
    }
    var packet := Normalize(input, run.source, run.finalOutput);
    if !MatrixGated(plan) {
      return true;
    }
    ok := Evaluate(plan.matrix, packet, options.requireFilesAndCommands);
    ok := ok && !options.lightweight;
  }

  /**
   * An advance, on the payload: for each criterion of the plan that asks for a run there is a coverage object with the word `sufficient`
   * and one of the five runnable kinds, some command it names has `passed` in its last well-formed record, and none has `failed` or `skipped` there.
   */
  lemma AdvanceMeansRunsPassed(plan: Plan, run: Run, options: Options, n: nat)
    requires plan.ready && GateOpen(plan, run, options) && n < |plan.matrix| && AsksForRun(plan.matrix[n])
    ensures var found := GateExtraction(run.sidecar, run.details).coder;
            found.Some?
            && var rows := Items(Get(found, "criterionCoverage"));
               exists i :: 0 <= i < |rows| && Backs(rows[i], plan.matrix[n].criterion, Items(Get(found, "commandsRun")))
  {
    GateOpensIff(plan, run, options);
    hide GateExtraction, GateOpen, AsksForRun, NamesCleanRuns, Text, RunnableWord;
    var payload := GateExtraction(run.sidecar, run.details).coder.value;
    var rows, runs := Items(Get(Some(payload), "criterionCoverage")), Items(Get(Some(payload), "commandsRun"));
    var i :| Decides(rows, plan.matrix[n].criterion, i) && Meets(plan.matrix[n], rows[i], runs);
    assert Backs(rows[i], plan.matrix[n].criterion, runs);
  }

  ghost predicate Backs(row: Json, criterion: string, runs: seq<Json>) {
    && Text(Get(Some(row), "criterion")) == criterion
    && IsSufficient(row)
    && RunnableWord(Word(row, "evidenceKind"))
    && NamesCleanRuns(row, runs)
  }
}
