/** The coder completion gate: normalizing the evidence packet and judging it against the plan's matrix. */
module CoderGate {
  import opened Js
  import opened Json
  import Matrix = EvidenceMatrix
  import opened CanonicalEvidence

  datatype EvidenceKind =
    | RunnableCheck | BehaviorTest | RuntimeGate | RegressionTest | UnitTest | StaticCheck | Diff | Artifact | ReviewerApproval
    | ManualValidation | PromptOnly | StaticOnly | SourceString | SkippedKind

  datatype Strength = Sufficient | Weak | Insufficient | Skipped | ManualCaveat

  datatype Outcome = Passed | Failed | NotRun

  datatype Command = Command(text: string, outcome: Outcome)

  datatype Row = Row(criterion: string, kind: EvidenceKind, strength: Strength, commands: seq<string>, caveats: string)

  datatype Flags = Flags(autoExit: bool, processExit: bool, missing: bool, freeForm: bool)

  datatype Packet = Packet(files: seq<string>, commands: seq<Command>, rows: seq<Row>, flags: Flags)

  datatype Source = NoSource | Explicit | AutoExit | ProcessExit | Missing | LegacySource

  // ---------- Normalizing ----------

  function OutcomeNamed(j: Option<Json>): Option<Outcome> {
    if j == Some(Str("passed")) then Some(Passed)
    else if j == Some(Str("failed")) then Some(Failed)
    else if j == Some(Str("skipped")) then Some(NotRun)
    else None
  }

  function StrengthNamed(j: Option<Json>): Option<Strength> {
    if j.None? || !j.value.Str? then None
    else
      match j.value.s
      case "sufficient" => Some(Sufficient)
      case "weak" => Some(Weak)
      case "insufficient" => Some(Insufficient)
      case "skipped" => Some(Skipped)
      case "manual-caveat" => Some(ManualCaveat)
      case _ => None
  }

  function EvidenceKindNamed(j: Option<Json>): Option<EvidenceKind> {
    if j.None? || !j.value.Str? then None
    else
      match j.value.s
      case "runnable-check" => Some(RunnableCheck)
      case "behavior-test" => Some(BehaviorTest)
      case "runtime-gate" => Some(RuntimeGate)
      case "regression-test" => Some(RegressionTest)
      case "unit-test" => Some(UnitTest)
      case "static-check" => Some(StaticCheck)
      case "diff" => Some(Diff)
      case "artifact" => Some(Artifact)
      case "reviewer-approval" => Some(ReviewerApproval)
      case "manual-validation" => Some(ManualValidation)
      case "prompt-only" => Some(PromptOnly)
      case "static-only" => Some(StaticOnly)
      case "source-string" => Some(SourceString)
      case "skipped" => Some(SkippedKind)
      case _ => None
  }

  function ReadCommand(j: Json): Option<Command> {
    var text := Text(Get(Some(j), "command"));
    var given := Get(Some(j), "outcome");
    var outcome := OutcomeNamed(if given.Some? && !given.value.Null? then given else Get(Some(j), "result"));
    if text == "" || outcome.None? then None else Some(Command(text, outcome.value))
  }

  function ReadRow(j: Json): Option<Row> {
    var criterion := Text(Get(Some(j), "criterion"));
    var kind, strength := EvidenceKindNamed(Get(Some(j), "evidenceKind")), StrengthNamed(Get(Some(j), "strength"));
    if criterion == "" || kind.None? || strength.None? || Text(Get(Some(j), "summary")) == "" then None
    else Some(Row(criterion, kind.value, strength.value, Texts(Get(Some(j), "supportingCommands")), Text(Get(Some(j), "caveats"))))
  }

  function ReadCommands(items: seq<Json>): seq<Command> {
    if items == [] then []
    else
      var c := ReadCommand(items[|items| - 1]);
      ReadCommands(items[..|items| - 1]) + if c.Some? then [c.value] else []
  }

  function ReadRows(items: seq<Json>): seq<Row> {
    if items == [] then []
    else
      var r := ReadRow(items[|items| - 1]);
      ReadRows(items[..|items| - 1]) + if r.Some? then [r.value] else []
  }

  predicate IsTrue(j: Json, key: string) {
    Get(Some(j), key) == Some(Bool(true))
  }

  function FlagsOf(history: Option<Json>, source: Source, finalOutput: string): Flags {
    var own := if history.Some? && history.value.Obj?
      then Flags(IsTrue(history.value, "autoExitObserved"), IsTrue(history.value, "processExitObserved"),
                 IsTrue(history.value, "missingSidecarObserved"), IsTrue(history.value, "freeFormOnlyObserved"))
      else Flags(false, false, false, false);
    Flags(own.autoExit || source.AutoExit?, own.processExit || source.ProcessExit?, own.missing || source.Missing?,
          own.freeForm || source.LegacySource? || (!source.NoSource? && !source.Explicit? && !Blank(finalOutput)))
  }

  /** The packet as the gate judges it; `null` reads as an empty packet, any other non-object as none. */
  function Normalize(j: Json, source: Source, finalOutput: string): Option<Packet> {
    match j
    case Null => Some(Packet([], [], [], FlagsOf(None, source, finalOutput)))
    case Obj(_) =>
      Some(Packet(Texts(Get(Some(j), "filesChanged")), ReadCommands(Items(Get(Some(j), "commandsRun"))),
                  ReadRows(Items(Get(Some(j), "criterionCoverage"))), FlagsOf(Get(Some(j), "delegateHistory"), source, finalOutput)))
    case _ => None
  }

  // ---------- Judging ----------

  function Rank(s: Strength): nat {
    match s
    case Sufficient => 4
    case ManualCaveat => 3
    case Weak => 2
    case Insufficient => 1
    case Skipped => 0
  }

  predicate IsRunnableRequired(k: Matrix.RequiredKind) {
    k.BehaviorTest? || k.RuntimeGateTest? || k.RegressionTest? || k.UnitTest?
  }

  predicate IsReviewOrManual(k: Matrix.RequiredKind) {
    k.ReviewerApproval? || k.ManualValidation?
  }

  predicate IsRunnable(k: EvidenceKind) {
    k.RunnableCheck? || k.BehaviorTest? || k.RuntimeGate? || k.RegressionTest? || k.UnitTest?
  }

  predicate IsWeak(k: EvidenceKind) {
    k.PromptOnly? || k.StaticOnly? || k.SourceString?
  }

  predicate NeedsRun(e: Matrix.Entry) {
    exists i :: 0 <= i < |e.evidence| && IsRunnableRequired(e.evidence[i].kind)
  }

  predicate NeedsPeople(e: Matrix.Entry) {
    !NeedsRun(e) && forall i :: 0 <= i < |e.evidence| ==> IsReviewOrManual(e.evidence[i].kind)
  }

  /** What a command is known to have done: its last recorded run. */
  function LastOutcome(commands: seq<Command>, text: string): Option<Outcome> {
    if commands == [] then None
    else if commands[|commands| - 1].text == text then Some(commands[|commands| - 1].outcome)
    else LastOutcome(commands[..|commands| - 1], text)
  }

  predicate RanClean(names: seq<string>, commands: seq<Command>) {
    && (exists i :: 0 <= i < |names| && LastOutcome(commands, names[i]) == Some(Passed))
    && (forall i :: 0 <= i < |names| ==> LastOutcome(commands, names[i]) != Some(Failed) && LastOutcome(commands, names[i]) != Some(NotRun))
  }

  predicate Satisfies(e: Matrix.Entry, r: Row, commands: seq<Command>) {
    if NeedsRun(e) then IsRunnable(r.kind) && r.strength.Sufficient? && RanClean(r.commands, commands)
    else if NeedsPeople(e) then
      (r.kind.ReviewerApproval? || r.kind.ManualValidation?) && (r.strength.ManualCaveat? || r.strength.Sufficient?) && r.caveats != ""
    else (r.strength.Sufficient? || r.strength.ManualCaveat?) && !IsWeak(r.kind)
  }

  /** `rows[k]` is the row that speaks for the criterion: the strongest, and the first of equally strong ones. */
  predicate Speaks(rows: seq<Row>, criterion: string, k: int) {
    && 0 <= k < |rows| && rows[k].criterion == criterion
    && (forall j :: 0 <= j < |rows| && rows[j].criterion == criterion ==>
          Rank(rows[j].strength) <= Rank(rows[k].strength) && (j < k ==> Rank(rows[j].strength) < Rank(rows[k].strength)))
  }

  predicate Covered(e: Matrix.Entry, p: Packet) {
    exists k :: 0 <= k < |p.rows| && Speaks(p.rows, e.criterion, k) && Satisfies(e, p.rows[k], p.commands)
  }

  predicate Accepted(matrix: seq<Matrix.Entry>, p: Packet, requireFilesAndCommands: bool) {
    && p.flags == Flags(false, false, false, false)
    && (requireFilesAndCommands ==> p.files != [] && p.commands != [])
    && p.rows != []
    && forall i :: 0 <= i < |matrix| ==> Covered(matrix[i], p)
  }

  /** The row that speaks for a criterion, if any row names it. */
  method FindSpeaker(rows: seq<Row>, criterion: string) returns (k: int)
    ensures k < 0 ==> forall j :: 0 <= j < |rows| ==> rows[j].criterion != criterion
    ensures k >= 0 ==> Speaks(rows, criterion, k)
  {
    k := -1;
    for i := 0 to |rows|
      invariant -1 <= k < i
      invariant k < 0 ==> forall j :: 0 <= j < i ==> rows[j].criterion != criterion
      invariant k >= 0 ==> Speaks(rows[..i], criterion, k)
    {
      if rows[i].criterion == criterion && (k < 0 || Rank(rows[i].strength) > Rank(rows[k].strength)) {
        k := i;
      }
    }
    assert rows[..|rows|] == rows;
  }

  lemma OneSpeaker(rows: seq<Row>, criterion: string, j: int, k: int)
    requires Speaks(rows, criterion, j) && Speaks(rows, criterion, k)
    ensures j == k
  {
  }

  /** The command's last recorded run, by the loop that fills the lookup. */
  method Lookup(commands: seq<Command>) returns (table: map<string, Outcome>)
    ensures forall text :: (if text in table then Some(table[text]) else None) == LastOutcome(commands, text)
  {
    table := map[];
    for i := 0 to |commands|
      invariant forall text :: (if text in table then Some(table[text]) else None) == LastOutcome(commands[..i], text)
    {
      assert commands[..i + 1][..i] == commands[..i];
      table := table[commands[i].text := commands[i].outcome];
    }
    assert commands[..|commands|] == commands;
  }

  /** The verdict of a matrix-gated evaluation. */
  method Evaluate(matrix: seq<Matrix.Entry>, packet: Option<Packet>, requireFilesAndCommands: bool) returns (ok: bool)
    ensures ok == (packet.Some? && Accepted(matrix, packet.value, requireFilesAndCommands))
  {
    if packet.None? {
      return false;
    }
    var p := packet.value;
    var errors := 0;
    if p.flags.autoExit || p.flags.processExit || p.flags.missing || p.flags.freeForm {
      errors := errors + 1;
    }
    if requireFilesAndCommands && (|p.files| == 0 || |p.commands| == 0) {
      errors := errors + 1;
    }
    if |p.rows| == 0 {
      errors := errors + 1;
    }
    ghost var before := errors;
    for i := 0 to |matrix|
      invariant errors >= before >= 0
      invariant errors == 0 <==> before == 0 && forall j :: 0 <= j < i ==> Covered(matrix[j], p)
    {
      var covered := JudgeEntry(matrix[i], p);
      if !covered {
        errors := errors + 1;
      }
    }
    ok := errors == 0;
  }

  method JudgeEntry(e: Matrix.Entry, p: Packet) returns (covered: bool)
    ensures covered == Covered(e, p)
  {
    var k := FindSpeaker(p.rows, e.criterion);
    if k < 0 {
      return false;
    }
    var table := Lookup(p.commands);
    var r := p.rows[k];
    var passed, clean := false, true;
    for i := 0 to |r.commands|
      invariant passed <==> exists j :: 0 <= j < i && LastOutcome(p.commands, r.commands[j]) == Some(Passed)
      invariant clean <==> forall j :: 0 <= j < i ==> LastOutcome(p.commands, r.commands[j]) != Some(Failed) && LastOutcome(p.commands, r.commands[j]) != Some(NotRun)
    {
      var outcome := if r.commands[i] in table then Some(table[r.commands[i]]) else None;
      if outcome == Some(Passed) {
        passed := true;
      }
      if outcome == Some(Failed) || outcome == Some(NotRun) {
        clean := false;
      }
    }
    if NeedsRun(e) {
      covered := IsRunnable(r.kind) && r.strength.Sufficient? && passed && clean;
    } else if NeedsPeople(e) {
      covered := (r.kind.ReviewerApproval? || r.kind.ManualValidation?) && (r.strength.ManualCaveat? || r.strength.Sufficient?) && r.caveats != "";
    } else {
      covered := (r.strength.Sufficient? || r.strength.ManualCaveat?) && !IsWeak(r.kind);
    }
    assert covered == Satisfies(e, r, p.commands);
    forall j | Speaks(p.rows, e.criterion, j)
      ensures j == k
    {
      OneSpeaker(p.rows, e.criterion, j, k);
    }
    hide Satisfies, Speaks;
  }

  // ---------- The gate ----------

  datatype Plan = Plan(ready: bool, matrix: seq<Matrix.Entry>)

  datatype Run = Run(sidecar: Option<Json>, details: Option<Json>, source: Source, finalOutput: string, warning: string)

  datatype Options = Options(requireFilesAndCommands: bool, lightweight: bool)

  predicate MatrixGated(plan: Plan) {
    plan.ready && plan.matrix != []
  }

  const EMPTY_PACKET := Obj(map["filesChanged" := Arr([]), "commandsRun" := Arr([]), "criterionCoverage" := Arr([])])

  function PacketOf(run: Run): Option<Packet> {
    var found := GateExtraction(run.sidecar, run.details);
    Normalize(if found.canonical && found.coder.Some? then found.coder.value else EMPTY_PACKET, run.source, run.finalOutput)
  }

  predicate GateOpen(plan: Plan, run: Run, options: Options) {
    MatrixGated(plan) ==>
      !options.lightweight && PacketOf(run).Some? && Accepted(plan.matrix, PacketOf(run).value, options.requireFilesAndCommands)
  }

  // ---------- Main results ----------

  /** Without a canonical coder payload a matrix-gated plan is refused, whatever else the result holds. */
  lemma NoCanonicalNoAdvance(plan: Plan, run: Run, options: Options)
    requires MatrixGated(plan)
    requires var found := GateExtraction(run.sidecar, run.details); !(found.canonical && found.coder.Some?)
    ensures !GateOpen(plan, run, options)
  {
    assert Items(Get(Some(EMPTY_PACKET), "criterionCoverage")) == [];
    hide GateExtraction, Texts;
  }

  /** Flags the source alone decides: prose can only repeat them. */
  lemma ProseAddsNoVerdict(history: Option<Json>, source: Source, a: string, b: string)
    ensures FlagsOf(history, source, a) == Flags(false, false, false, false) <==> FlagsOf(history, source, b) == Flags(false, false, false, false)
  {
  }

  lemma NormalizeDiffersInFlagsOnly(j: Json, source: Source, a: string, b: string)
    ensures Normalize(j, source, a).Some? == Normalize(j, source, b).Some?
    ensures Normalize(j, source, a).Some? ==>
      (var (p, q) := (Normalize(j, source, a).value, Normalize(j, source, b).value);
       p.files == q.files && p.commands == q.commands && p.rows == q.rows
       && (p.flags == Flags(false, false, false, false) <==> q.flags == Flags(false, false, false, false)))
  {
    ProseAddsNoVerdict(None, source, a, b);
    ProseAddsNoVerdict(Get(Some(j), "delegateHistory"), source, a, b);
    hide FlagsOf, Texts, ReadCommands, ReadRows;
  }

  /**
   * The gate's verdict depends on the plan, the options, the completion source and the envelope, on nothing else: not on the final
   * text, the warnings, the details once there is a sidecar, or any legacy field.
   */
  lemma VerdictIsTheEnvelopes(plan: Plan, a: Run, b: Run, options: Options)
    requires Authority(a.sidecar, a.details) == Authority(b.sidecar, b.details) && a.source == b.source
    ensures GateOpen(plan, a, options) == GateOpen(plan, b, options)
  {
    var found := GateExtraction(a.sidecar, a.details);
    var j := if found.canonical && found.coder.Some? then found.coder.value else EMPTY_PACKET;
    NormalizeDiffersInFlagsOnly(j, a.source, a.finalOutput, b.finalOutput);
    hide Authority, Extract, Normalize, EMPTY_PACKET;
    if PacketOf(a).Some? {
      SameButFlags(plan.matrix, PacketOf(a).value, PacketOf(b).value, options.requireFilesAndCommands);
    }
    hide Accepted;
  }

  lemma SameButFlags(matrix: seq<Matrix.Entry>, p: Packet, q: Packet, require: bool)
    requires p.files == q.files && p.commands == q.commands && p.rows == q.rows
    requires p.flags == Flags(false, false, false, false) <==> q.flags == Flags(false, false, false, false)
    ensures Accepted(matrix, p, require) == Accepted(matrix, q, require)
  {
    forall e
      ensures Covered(e, p) == Covered(e, q)
    {
      hide Speaks, Satisfies;
    }
    hide Covered;
  }

  /** An advance on a matrix-gated plan: for each criterion that needs a run, some command its row names last passed, and none last failed. */
  lemma AdvanceMeansTestsPassed(plan: Plan, run: Run, options: Options, i: nat)
    requires MatrixGated(plan) && GateOpen(plan, run, options) && i < |plan.matrix| && NeedsRun(plan.matrix[i])
    ensures var p := PacketOf(run).value;
            exists k :: Speaks(p.rows, plan.matrix[i].criterion, k) && IsRunnable(p.rows[k].kind) && p.rows[k].strength.Sufficient?
              && RanClean(p.rows[k].commands, p.commands)
  {
    hide PacketOf, Speaks, NeedsRun, RanClean, IsRunnable;
    var p := PacketOf(run).value;
    assert Covered(plan.matrix[i], p);
    var k :| 0 <= k < |p.rows| && Speaks(p.rows, plan.matrix[i].criterion, k) && Satisfies(plan.matrix[i], p.rows[k], p.commands);
  }

  lemma OneMoreRecord(commands: seq<Command>, later: Command, text: string)
    ensures LastOutcome(commands + [later], text) == if later.text == text then Some(later.outcome) else LastOutcome(commands, text)
  {
  }

  function Without(commands: seq<Command>, text: string): seq<Command> {
    if commands == [] then []
    else Without(commands[..|commands| - 1], text) + if commands[|commands| - 1].text == text then [] else [commands[|commands| - 1]]
  }

  /** The records no later record of the same command follows. */
  function Latest(commands: seq<Command>): seq<Command> {
    if commands == [] then []
    else
      var last := commands[|commands| - 1];
      Without(Latest(commands[..|commands| - 1]), last.text) + [last]
  }

  lemma OneMoreWithout(front: seq<Command>, last: Command, text: string)
    ensures Without(front + [last], text) == if last.text == text then Without(front, text) else Without(front, text) + [last]
  {
    assert (front + [last])[..|front|] == front;
    assert Without(front, text) + [] == Without(front, text);
  }

  lemma OneMoreLatest(front: seq<Command>, last: Command)
    ensures Latest(front + [last]) == Without(Latest(front), last.text) + [last]
  {
    assert (front + [last])[..|front|] == front;
    hide Without;
  }

  lemma {:induction false} WithoutKeepsOthers(commands: seq<Command>, text: string, other: string)
    ensures LastOutcome(Without(commands, text), other) == if other == text then None else LastOutcome(commands, other)
  {
    if commands != [] {
      var front, last := commands[..|commands| - 1], commands[|commands| - 1];
      assert commands == front + [last];
      hide LastOutcome, Without;
      WithoutKeepsOthers(front, text, other);
      OneMoreWithout(front, last, text);
      OneMoreRecord(front, last, other);
      OneMoreRecord(Without(front, text), last, other);
    }
  }

  lemma {:induction false} LatestKeepsOutcomes(commands: seq<Command>, text: string)
    ensures LastOutcome(Latest(commands), text) == LastOutcome(commands, text)
  {
    if commands != [] {
      var front, last := commands[..|commands| - 1], commands[|commands| - 1];
      assert commands == front + [last];
      hide LastOutcome, Latest, Without;
      LatestKeepsOutcomes(front, text);
      OneMoreLatest(front, last);
      WithoutKeepsOthers(Latest(front), last.text, text);
      OneMoreRecord(front, last, text);
      OneMoreRecord(Without(Latest(front), last.text), last, text);
    }
  }

  ghost predicate OncePerCommand(commands: seq<Command>) {
    forall i, j :: 0 <= i < j < |commands| ==> commands[i].text != commands[j].text
  }

  predicate Names(commands: seq<Command>, text: string) {
    exists i :: 0 <= i < |commands| && commands[i].text == text
  }

  lemma NamesOneMore(front: seq<Command>, last: Command, text: string)
    ensures Names(front + [last], text) <==> Names(front, text) || last.text == text
  {
    if Names(front, text) {
      var i :| 0 <= i < |front| && front[i].text == text;
      assert (front + [last])[i].text == text;
    }
    assert (front + [last])[|front|] == last;
  }

  lemma OnceOneMore(front: seq<Command>, last: Command)
    ensures OncePerCommand(front + [last]) <==> OncePerCommand(front) && !Names(front, last.text)
  {
    var all := front + [last];
    assert all[|front|] == last && forall i :: 0 <= i < |front| ==> all[i] == front[i];
  }

  /** Taking a command out leaves no record of it, adds none, and keeps the others apart. */
  lemma {:induction false} WithoutStaysOnce(commands: seq<Command>, text: string, other: string)
    ensures Names(Without(commands, text), other) <==> Names(commands, other) && other != text
    ensures OncePerCommand(commands) ==> OncePerCommand(Without(commands, text))
  {
    if commands != [] {
      var front, last := commands[..|commands| - 1], commands[|commands| - 1];
      assert commands == front + [last];
      hide Without, Names, OncePerCommand;
      WithoutStaysOnce(front, text, other);
      WithoutStaysOnce(front, text, last.text);
      OneMoreWithout(front, last, text);
      NamesOneMore(front, last, other);
      NamesOneMore(Without(front, text), last, other);
      OnceOneMore(front, last);
      OnceOneMore(Without(front, text), last);
    }
  }

  lemma {:induction false} LatestIsOncePerCommand(commands: seq<Command>)
    ensures OncePerCommand(Latest(commands))
  {
    if commands != [] {
      var front, last := commands[..|commands| - 1], commands[|commands| - 1];
      assert commands == front + [last];
      hide Latest, Without, Names, OncePerCommand;
      LatestIsOncePerCommand(front);
      OneMoreLatest(front, last);
      WithoutStaysOnce(Latest(front), last.text, last.text);
      OnceOneMore(Without(Latest(front), last.text), last);
    }
  }

  /**
   * The verdict on a packet is the one on its latest records alone: dropping every record that a later one of the same command
   * supersedes, a failure before a pass or a pass before a failure, changes nothing.
   */
  lemma LastRunDecides(matrix: seq<Matrix.Entry>, p: Packet, requireFilesAndCommands: bool)
    ensures OncePerCommand(Latest(p.commands))
    ensures Accepted(matrix, p.(commands := Latest(p.commands)), requireFilesAndCommands) == Accepted(matrix, p, requireFilesAndCommands)
  {
    LatestIsOncePerCommand(p.commands);
    forall text
      ensures LastOutcome(Latest(p.commands), text) == LastOutcome(p.commands, text)
    {
      LatestKeepsOutcomes(p.commands, text);
    }
    LatestIsEmptyIff(p.commands);
    hide LastOutcome, Latest, NeedsRun, NeedsPeople, IsRunnable, IsWeak;
    var q := p.(commands := Latest(p.commands));
    forall i | 0 <= i < |matrix|
      ensures Covered(matrix[i], p) == Covered(matrix[i], q)
    {
      SameOutcomesCover(matrix[i], p, q);
    }
    hide Covered;
  }

  lemma LatestIsEmptyIff(commands: seq<Command>)
    ensures Latest(commands) == [] <==> commands == []
  {
    hide Without;
  }

  lemma SameOutcomesCover(e: Matrix.Entry, p: Packet, q: Packet)
    requires p.rows == q.rows && forall text :: LastOutcome(p.commands, text) == LastOutcome(q.commands, text)
    ensures Covered(e, p) == Covered(e, q)
  {
    hide LastOutcome, NeedsRun, NeedsPeople, IsRunnable, IsWeak, Speaks;
    forall k | 0 <= k < |p.rows|
      ensures Satisfies(e, p.rows[k], p.commands) == Satisfies(e, q.rows[k], q.commands)
    {
      SameOutcomesRan(p.rows[k].commands, p.commands, q.commands);
    }
    hide Satisfies;
  }

  lemma SameOutcomesRan(names: seq<string>, a: seq<Command>, b: seq<Command>)
    requires forall text :: LastOutcome(a, text) == LastOutcome(b, text)
    ensures RanClean(names, a) == RanClean(names, b)
  {
    hide LastOutcome;
  }

  // ---------- Legacy events inside the envelope ----------

  /** The gate judges the coder payload that was found; nothing else of the extraction counts. */
  lemma PacketIsTheCoderPayload(a: Run, b: Run)
    requires GateExtraction(a.sidecar, a.details).coder == GateExtraction(b.sidecar, b.details).coder
    requires a.source == b.source && a.finalOutput == b.finalOutput
    ensures PacketOf(a) == PacketOf(b)
  {
    FoundIsCanonical(a);
    FoundIsCanonical(b);
    hide GateExtraction, Normalize;
  }

  lemma FoundIsCanonical(run: Run)
    ensures var found := GateExtraction(run.sidecar, run.details); found.coder.Some? ==> found.canonical
  {
    hide Extract;
    var envelope := Authority(run.sidecar, run.details);
    if envelope.Some? {
      PayloadsAreCanonical(envelope.value);
    }
  }

  /**
   * A legacy event put anywhere into a ledger that the result offers as evidence, as the envelope itself or as its
   * `event`, in a sidecar or in the details, never changes the gate's verdict, however strong its payload.
   */
  lemma LegacyEventsDoNotMoveTheGate(plan: Plan, run: Run, options: Options, top: map<string, Json>, envelope: map<string, Json>,
                                     fields: map<string, Json>, a: seq<Json>, e: Json, b: seq<Json>)
    requires LegacyEvent(e)
    ensures var (with, without) := (At(top, "evidence", WithEvents(fields, a + [e] + b)), At(top, "evidence", WithEvents(fields, a + b)));
            GateOpen(plan, run.(sidecar := Some(with)), options) == GateOpen(plan, run.(sidecar := Some(without)), options)
    ensures var (with, without) := (At(top, "evidence", At(envelope, "event", WithEvents(fields, a + [e] + b))),
                                    At(top, "evidence", At(envelope, "event", WithEvents(fields, a + b))));
            && GateOpen(plan, run.(sidecar := Some(with)), options) == GateOpen(plan, run.(sidecar := Some(without)), options)
            && GateOpen(plan, run.(sidecar := None, details := Some(with)), options)
               == GateOpen(plan, run.(sidecar := None, details := Some(without)), options)
  {
    hide Accepted, PacketOf, Extract;
    var (x, y) := (WithEvents(fields, a + [e] + b), WithEvents(fields, a + b));
    LegacyEventsAreIgnored(fields, a, e, b);
    EnvelopeIsRead(top, x, run.details);
    EnvelopeIsRead(top, y, run.details);
    PacketIsTheCoderPayload(run.(sidecar := Some(At(top, "evidence", x))), run.(sidecar := Some(At(top, "evidence", y))));
    var (u, v) := (At(envelope, "event", x), At(envelope, "event", y));
    LegacyEventsUnderEventAreIgnored(envelope, fields, a, e, b);
    EnvelopeIsRead(top, u, run.details);
    EnvelopeIsRead(top, v, run.details);
    PacketIsTheCoderPayload(run.(sidecar := Some(At(top, "evidence", u))), run.(sidecar := Some(At(top, "evidence", v))));
    PacketIsTheCoderPayload(run.(sidecar := None, details := Some(At(top, "evidence", u))),
                            run.(sidecar := None, details := Some(At(top, "evidence", v))));
  }
}
