/** How ship runs come into being: the `/sprint task ship` command and the `sprint_ship` tool, both over the planning gate. */
module ShipCommand {
  import opened Js
  import opened ShipEngine
  import opened ShipRuns
  import opened ShipHistory
  import Planning
  import P = PlanningTools

  datatype CommandResult =
    | Usage | InvalidLane | MissingKind | MissingScope | BadNextLane | GateClosed | UnsafeRunId | RunExists | Started(runId: string)

  /** The planning files a gate reads. */
  datatype PlanningFiles = PlanningFiles(rooms: map<string, P.File>, planning: P.Pointer, workflow: P.Pointer)

  predicate GateOpen(files: PlanningFiles, asked: string) {
    P.EvaluateGate(files.rooms, files.planning, files.workflow, asked, P.ImplementationKind, false).allowed
  }

  // ---------- Arguments ----------

  predicate IsOption(arg: string) {
    |arg| >= 2 && arg[0] == '-' && arg[1] == '-'
  }

  /** The position of the first `name`, or the number of arguments. */
  function IndexOf(args: seq<string>, name: string): (i: nat)
    ensures i <= |args|
  {
    if args == [] || args[0] == name then 0 else 1 + IndexOf(args[1..], name)
  }

  function ValueAfter(args: seq<string>, name: string): Option<string> {
    var i := IndexOf(args, name);
    if i + 1 < |args| then Some(args[i + 1]) else None
  }

  function TextAfter(args: seq<string>, name: string): string {
    var v := ValueAfter(args, name);
    if v.Some? then Trim(v.value) else ""
  }

  function FirstPositional(args: seq<string>): string {
    if args == [] then "" else if IsOption(args[0]) then FirstPositional(args[1..]) else args[0]
  }

  function LaneOf(text: string): Lane {
    match text
    case "full-sprint" => FullSprint
    case "hotfix" => Hotfix
    case "debug" => Debug
    case _ => OtherLane(text)
  }

  function KindOf(text: string): Option<HotfixKind> {
    match text
    case "code-changing" => Some(CodeChanging)
    case "text-evidence-only" => Some(TextOnly)
    case _ => None
  }

  function NextOf(text: string): Option<NextLane> {
    match text
    case "hotfix" => Some(ToHotfix)
    case "full-sprint" => Some(ToFullSprint)
    case "no-code/report-only" => Some(ReportOnly)
    case _ => None
  }

  /** `--retry-budget`: a finite positive number counts as at least one, everything else as three. */
  function SlashBudget(n: JsNumber): int {
    match n
    case Finite(x) => if x > 0.0 then Max(1, x.Floor) else 3
    case _ => 3
  }

  predicate IsAlphanumeric(c: char) {
    'a' <= c <= 'z' || 'A' <= c <= 'Z' || '0' <= c <= '9'
  }

  predicate SafeRunId(id: string) {
    && 1 <= |id| <= 128 && IsAlphanumeric(id[0])
    && (forall i :: 0 <= i < |id| ==> IsAlphanumeric(id[i]) || id[i] in ['.', '_', '-'])
    && (forall i :: 0 <= i < |id| - 1 ==> !(id[i] == '.' && id[i + 1] == '.'))
  }

  // ---------- The command ----------

  datatype Command = Command(args: seq<string>, toNumber: string -> JsNumber, files: PlanningFiles, generated: string)

  function CommandLane(c: Command): Lane {
    LaneOf(if "--lane" in c.args then TextAfter(c.args, "--lane") else "full-sprint")
  }

  function CommandRunId(c: Command): string {
    var given := TextAfter(c.args, "--run-id");
    if given != "" then given else c.generated
  }

  function CommandInput(c: Command): StartInput {
    var text := ValueAfter(c.args, "--retry-budget");
    var lane := CommandLane(c);
    StartInput(
      lane, if lane == Hotfix then KindOf(TextAfter(c.args, "--hotfix-kind")) else None,
      Finite(SlashBudget(if text.Some? then c.toNumber(text.value) else NaN) as real), {}, "", None, None, lane == FullSprint)
  }

  function CommandOutcome(c: Command, runs: map<string, ShipState>): CommandResult {
    if "--afk" !in c.args then Usage
    else if |c.args| < 2 || FirstPositional(c.args[2..]) == "" then Usage
    else if CommandLane(c).OtherLane? then InvalidLane
    else if CommandLane(c) == Hotfix && KindOf(TextAfter(c.args, "--hotfix-kind")).None? then MissingKind
    else if CommandLane(c) == Hotfix && TextAfter(c.args, "--scope") == "" then MissingScope
    else if CommandLane(c) == FullSprint && !GateOpen(c.files, "") then GateClosed
    else if !SafeRunId(CommandRunId(c)) then UnsafeRunId
    else if CommandRunId(c) in runs then RunExists
    else Started(CommandRunId(c))
  }

  function AfterCommand(c: Command, runs: map<string, ShipState>): map<string, ShipState> {
    var out := CommandOutcome(c, runs);
    if out.Started? then runs[out.runId := Initial(CommandInput(c))] else runs
  }

  // ---------- The tool's start action ----------

  datatype StartParams = StartParams(
    lane: string, kind: string, scope: string, recommended: string, selected: string, diagnosis: string, budget: JsNumber,
    runId: string, planningRoom: string, files: PlanningFiles, generated: string)

  function ToolInput(p: StartParams): StartInput {
    var lane := LaneOf(p.lane);
    StartInput(
      lane, if lane == Hotfix then KindOf(p.kind) else None,
      match p.budget case Finite(x) => Finite(Max(0, x.Floor) as real) case _ => Finite(3.0),
      {}, p.diagnosis, NextOf(p.recommended), NextOf(p.selected), lane == FullSprint)
  }

  function ToolOutcome(p: StartParams, runs: map<string, ShipState>): CommandResult {
    var lane := LaneOf(p.lane);
    var runId := if p.runId != "" then p.runId else p.generated;
    if lane.OtherLane? then InvalidLane
    else if lane == Hotfix && KindOf(p.kind).None? then MissingKind
    else if lane == Hotfix && p.scope == "" then MissingScope
    else if lane == Debug && p.recommended != "" && NextOf(p.recommended).None? then BadNextLane
    else if lane == FullSprint && !GateOpen(p.files, p.planningRoom) then GateClosed
    else if !SafeRunId(runId) then UnsafeRunId
    else if runId in runs then RunExists
    else Started(runId)
  }

  function AfterTool(p: StartParams, runs: map<string, ShipState>): map<string, ShipState> {
    var out := ToolOutcome(p, runs);
    if out.Started? then runs[out.runId := Initial(ToolInput(p))] else runs
  }

  // ---------- The command as it runs ----------

  method FindOption(args: seq<string>, name: string) returns (i: nat)
    ensures i == IndexOf(args, name)
  {
    i := 0;
    while i < |args| && args[i] != name
      invariant i <= |args|
      invariant IndexOf(args, name) == i + IndexOf(args[i..], name)
    {
      i := i + 1;
    }
  }

  method FirstPositionalOf(args: seq<string>) returns (task: string)
    ensures task == FirstPositional(args)
  {
    for i := 0 to |args|
      invariant FirstPositional(args) == FirstPositional(args[i..])
    {
      if !IsOption(args[i]) {
        return args[i];
      }
    }
    task := "";
  }

  lemma {:induction false} IndexOfFinds(args: seq<string>, name: string)
    ensures name in args <==> IndexOf(args, name) < |args|
  {
    if args != [] && args[0] != name {
      IndexOfFinds(args[1..], name);
      assert args == [args[0]] + args[1..];
    }
  }

  method OptionText(args: seq<string>, name: string) returns (text: string)
    ensures text == TextAfter(args, name)
  {
    var i := FindOption(args, name);
    text := if i + 1 < |args| then Trim(args[i + 1]) else "";
  }

  class ShipRunFiles {
    var runs: map<string, ShipState>

    constructor ()
      ensures runs == map[]
    {
      runs := map[];
    }

    /** `/sprint task ship`: checks in order, early returns, then the state file. */
    method TaskShip(c: Command) returns (out: CommandResult)
      modifies this
      ensures out == CommandOutcome(c, old(runs)) && runs == AfterCommand(c, old(runs))
    {
      hide GateOpen, Trim, SafeRunId, LaneOf, KindOf, Initial, IsOption, FirstPositional, ToLower;
      var args := c.args;
      if "--afk" !in args {
        return Usage;
      }
      var task := "";
      if |args| >= 2 {
        task := FirstPositionalOf(args[2..]);
      }
      if task == "" {
        return Usage;
      }
      IndexOfFinds(args, "--lane");
      var laneAt := FindOption(args, "--lane");
      var laneText := "full-sprint";
      if laneAt < |args| {
        laneText := OptionText(args, "--lane");
      }
      var lane := LaneOf(laneText);
      if lane.OtherLane? {
        return InvalidLane;
      }
      var kindText := OptionText(args, "--hotfix-kind");
      if lane == Hotfix && KindOf(kindText).None? {
        return MissingKind;
      }
      var scope := OptionText(args, "--scope");
      if lane == Hotfix && scope == "" {
        return MissingScope;
      }
      var given := OptionText(args, "--run-id");
      var budgetAt := FindOption(args, "--retry-budget");
      var number := NaN;
      if budgetAt + 1 < |args| {
        number := c.toNumber(args[budgetAt + 1]);
      }
      var retryBudget := 3;
      if number.Finite? && number.value > 0.0 {
        retryBudget := Max(1, number.value.Floor);
      }
      if lane == FullSprint && !GateOpen(c.files, "") {
        return GateClosed;
      }
      var runId := if given != "" then given else c.generated;
      if !SafeRunId(runId) {
        return UnsafeRunId;
      }
      if runId in runs {
        return RunExists;
      }
      var input := StartInput(
        lane, if lane == Hotfix then KindOf(kindText) else None, Finite(retryBudget as real), {}, "", None, None, lane == FullSprint);
      runs := runs[runId := Initial(input)];
      out := Started(runId);
    }

    /** The tool's transition action: read, step, write back. */
    method Transition(runId: string, e: Event) returns (found: bool)
      modifies this
      ensures found == (runId in old(runs))
      ensures runs == if runId in old(runs) then old(runs)[runId := Step(old(runs)[runId], e)] else old(runs)
    {
      found := runId in runs;
      if found {
        runs := runs[runId := Step(runs[runId], e)];
      }
    }
  }

  // ---------- Budgets ----------

  /** Whatever the command line says, a run starts with an integer budget of at least one. */
  lemma CommandBudgetIsPositive(c: Command)
    ensures Initial(CommandInput(c)).retryBudget >= 1
  {
    var text := ValueAfter(c.args, "--retry-budget");
    var n := SlashBudget(if text.Some? then c.toNumber(text.value) else NaN);
    assert (n as real).Floor == n;
    hide Trim, IndexOf;
  }

  /** The tool lets a budget of zero through: exactly for a finite number below one. */
  lemma ToolBudgetIff(p: StartParams)
    ensures Initial(ToolInput(p)).retryBudget >= 1 <==> !(p.budget.Finite? && p.budget.value < 1.0)
  {
    if p.budget.Finite? {
      assert (Max(0, p.budget.value.Floor) as real).Floor == Max(0, p.budget.value.Floor);
    }
  }

  // ---------- End to end ----------

  datatype Act = ByCommand(c: Command) | ByTool(p: StartParams) | ByEvent(runId: string, e: Event)

  function ActOn(runs: map<string, ShipState>, act: Act): map<string, ShipState> {
    match act
    case ByCommand(c) => AfterCommand(c, runs)
    case ByTool(p) => AfterTool(p, runs)
    case ByEvent(runId, e) => if runId in runs then runs[runId := Step(runs[runId], e)] else runs
  }

  function RunsAfter(acts: seq<Act>): map<string, ShipState> {
    if acts == [] then map[] else ActOn(RunsAfter(acts[..|acts| - 1]), acts[|acts| - 1])
  }

  /** The act created the run while the implementation gate was open. */
  ghost predicate CreatedUnderGate(runs: map<string, ShipState>, act: Act, id: string) {
    match act
    case ByCommand(c) => CommandOutcome(c, runs) == Started(id) && GateOpen(c.files, "")
    case ByTool(p) => ToolOutcome(p, runs) == Started(id) && GateOpen(p.files, p.planningRoom)
    case ByEvent(_, _) => false
  }

  ghost predicate Authorised(acts: seq<Act>, id: string) {
    exists i :: 0 <= i < |acts| && CreatedUnderGate(RunsAfter(acts[..i]), acts[i], id)
  }

  lemma AuthorisedStays(acts: seq<Act>, id: string)
    requires acts != []
    ensures Authorised(acts[..|acts| - 1], id) ==> Authorised(acts, id)
    ensures CreatedUnderGate(RunsAfter(acts[..|acts| - 1]), acts[|acts| - 1], id) ==> Authorised(acts, id)
  {
    var front := acts[..|acts| - 1];
    hide CreatedUnderGate, RunsAfter;
    if Authorised(front, id) {
      var i :| 0 <= i < |front| && CreatedUnderGate(RunsAfter(front[..i]), front[i], id);
      assert front[..i] == acts[..i];
    }
  }

  lemma CreatedRuns(i: StartInput)
    requires !i.lane.OtherLane?
    ensures Sound(Initial(i)) && Initial(i).gatesConfirmed == i.gatesConfirmed
  {
  }

  lemma ActKeepsAuthority(runs: map<string, ShipState>, act: Act, id: string)
    requires id in ActOn(runs, act)
    requires id in runs ==> Sound(runs[id])
    ensures var s := ActOn(runs, act)[id];
            Sound(s) && (s.gatesConfirmed ==> CreatedUnderGate(runs, act, id) || (id in runs && runs[id].gatesConfirmed))
  {
    match act
    case ByCommand(c) =>
      CommandCreates(runs, c, id);
    case ByTool(p) =>
      ToolCreates(runs, p, id);
    case ByEvent(runId, e) =>
      if runId in runs && runId == id {
        StepSound(runs[id], e);
        StepGrows(runs[id], e);
      }
      hide Step, Sound, WorkGrows;
  }

  lemma CommandCreates(runs: map<string, ShipState>, c: Command, id: string)
    requires id in AfterCommand(c, runs) && (id in runs ==> Sound(runs[id]))
    ensures var s := AfterCommand(c, runs)[id];
            Sound(s) && (s.gatesConfirmed ==> CreatedUnderGate(runs, ByCommand(c), id) || (id in runs && runs[id].gatesConfirmed))
  {
    hide Sound, GateOpen, SafeRunId, TextAfter, FirstPositional, Initial, SlashBudget, ValueAfter, KindOf, CommandLane, CommandRunId;
    if !CommandLane(c).OtherLane? {
      CreatedRuns(CommandInput(c));
    }
  }

  lemma ToolCreates(runs: map<string, ShipState>, p: StartParams, id: string)
    requires id in AfterTool(p, runs) && (id in runs ==> Sound(runs[id]))
    ensures var s := AfterTool(p, runs)[id];
            Sound(s) && (s.gatesConfirmed ==> CreatedUnderGate(runs, ByTool(p), id) || (id in runs && runs[id].gatesConfirmed))
  {
    hide Sound, GateOpen, SafeRunId, Initial, KindOf, LaneOf, NextOf;
    if !LaneOf(p.lane).OtherLane? {
      CreatedRuns(ToolInput(p));
    }
  }

  lemma {:induction false} RunsAreAuthorised(acts: seq<Act>, id: string)
    requires id in RunsAfter(acts)
    ensures Sound(RunsAfter(acts)[id]) && (RunsAfter(acts)[id].gatesConfirmed ==> Authorised(acts, id))
  {
    if acts != [] {
      var runs := RunsAfter(acts[..|acts| - 1]);
      if id in runs {
        RunsAreAuthorised(acts[..|acts| - 1], id);
      }
      ActKeepsAuthority(runs, acts[|acts| - 1], id);
      AuthorisedStays(acts, id);
      hide ActOn, Sound, Authorised, CreatedUnderGate;
    }
  }

  /**
   * A full-sprint run that stands delivered, whatever commands, tool calls and events came before and
   * however the planning files changed meanwhile, was created by an act that read an open implementation gate:
   * a state file at the room it resolved to, of a scope that is not tiny, with all four flags set and no pending invalidation.
   */
  lemma DeliveredSprintsWerePlanned(acts: seq<Act>, id: string)
    requires id in RunsAfter(acts)
    requires var s := RunsAfter(acts)[id]; s.lane == FullSprint && s.at.stage.DeliveryComplete?
    ensures exists i :: 0 <= i < |acts| && CreatedUnderGate(RunsAfter(acts[..i]), acts[i], id) && PlannedAct(acts[i])
  {
    hide RunsAfter, CreatedUnderGate, PlannedAct, Sound;
    RunsAreAuthorised(acts, id);
    DeliveredSprintHadGates(RunsAfter(acts)[id]);
    var i :| 0 <= i < |acts| && CreatedUnderGate(RunsAfter(acts[..i]), acts[i], id);
    OpenActWasPlanned(RunsAfter(acts[..i]), acts[i], id);
  }

  lemma DeliveredSprintHadGates(s: ShipState)
    requires Sound(s) && s.lane == FullSprint && s.at.stage.DeliveryComplete?
    ensures s.gatesConfirmed
  {
    hide PassingFinalization, Evidenced;
  }

  /** The planning record the act's gate read was confirmed in all four flags. */
  ghost predicate PlannedAct(act: Act) {
    !act.ByEvent? &&
    var (files, asked) := if act.ByCommand? then (act.c.files, "") else (act.p.files, act.p.planningRoom);
    var room := P.ToolRoom(files.rooms, files.planning, files.workflow, asked);
    room.Some? && room.value in files.rooms && files.rooms[room.value].Readable?
    && P.OpenRecord(files.rooms[room.value].record, P.ImplementationKind)
  }

  lemma OpenActWasPlanned(runs: map<string, ShipState>, act: Act, id: string)
    requires CreatedUnderGate(runs, act, id)
    ensures PlannedAct(act)
  {
    var (files, asked) := if act.ByCommand? then (act.c.files, "") else (act.p.files, act.p.planningRoom);
    P.OpenGateHasState(files.rooms, files.planning, files.workflow, asked, P.ImplementationKind);
    hide CommandOutcome, ToolOutcome, P.EvaluateGate, P.ToolRoom, P.OpenRecord;
  }
}
