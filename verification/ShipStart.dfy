/** Which words of a command line or a tool call start a ship run, and the state it starts in. */
module ShipStart {
  import opened Js
  import opened ShipEngine
  import opened ShipCommand

  // ---------- Options ----------

  ghost predicate FirstAt(args: seq<string>, name: string, i: int) {
    0 <= i < |args| && args[i] == name && forall j :: 0 <= j < i ==> args[j] != name
  }

  /** The trimmed argument behind the first occurrence of the option, or the empty text where there is none. */
  ghost predicate HasValue(args: seq<string>, name: string, value: string) {
    if exists i :: FirstAt(args, name, i) && i + 1 < |args| then exists i :: FirstAt(args, name, i) && i + 1 < |args| && value == Trim(args[i + 1])
    else value == ""
  }

  lemma {:induction false} FirstIsIndex(args: seq<string>, name: string, i: int)
    ensures FirstAt(args, name, i) <==> i == IndexOf(args, name) < |args|
  {
    if args != [] && args[0] != name {
      FirstIsIndex(args[1..], name, i - 1);
      assert forall k :: 0 <= k < |args| - 1 ==> args[1..][k] == args[k + 1];
      assert FirstAt(args, name, i) <==> FirstAt(args[1..], name, i - 1) by {
        FirstShifts(args, name, i);
      }
    }
  }

  lemma FirstShifts(args: seq<string>, name: string, i: int)
    requires args != [] && args[0] != name
    ensures FirstAt(args, name, i) <==> FirstAt(args[1..], name, i - 1)
  {
    var rest := args[1..];
    if FirstAt(rest, name, i - 1) {
      forall j | 0 <= j < i
        ensures args[j] != name
      {
        assert j > 0 ==> args[j] == rest[j - 1];
      }
    }
  }

  lemma OptionsAreFound(args: seq<string>, name: string, value: string)
    ensures HasValue(args, name, value) <==> value == TextAfter(args, name)
  {
    forall i
      ensures FirstAt(args, name, i) <==> i == IndexOf(args, name) < |args|
    {
      FirstIsIndex(args, name, i);
    }
    hide IndexOf, FirstAt, Trim;
    var i := IndexOf(args, name);
    if i + 1 < |args| {
      assert FirstAt(args, name, i);
    }
  }

  /** An argument that starts with two hyphens is an option. */
  predicate Dashed(arg: string) {
    |arg| >= 2 && arg[..2] == "--"
  }

  lemma OptionsAreDashed(args: seq<string>)
    ensures forall i :: 0 <= i < |args| ==> (IsOption(args[i]) <==> Dashed(args[i]))
  {
  }

  /** A run id: up to 128 letters, digits, dots, underscores and hyphens, no other than a letter or digit first, and no two dots in a row. */
  predicate IsRunId(id: string) {
    && id != "" && |id| <= 128 && LetterOrDigit(id[0])
    && (forall i :: 0 <= i < |id| ==> LetterOrDigit(id[i]) || id[i] == '.' || id[i] == '_' || id[i] == '-')
    && (forall i :: 0 <= i < |id| - 1 ==> !(id[i] == '.' && id[i + 1] == '.'))
  }

  predicate LetterOrDigit(c: char) {
    'a' <= c <= 'z' || 'A' <= c <= 'Z' || '0' <= c <= '9'
  }

  lemma RunIdsAreSafe(id: string)
    ensures SafeRunId(id) <==> IsRunId(id)
  {
  }

  /** The first argument from the third on that is no option is there and not empty. */
  predicate NamesTask(args: seq<string>) {
    exists k :: 2 <= k < |args| && !Dashed(args[k]) && args[k] != "" && forall j :: 2 <= j < k ==> Dashed(args[j])
  }

  lemma {:induction false} PositionalIsFirst(args: seq<string>)
    ensures FirstPositional(args) != ""
            <==> exists k :: 0 <= k < |args| && !IsOption(args[k]) && args[k] != "" && forall j :: 0 <= j < k ==> IsOption(args[j])
  {
    hide IsOption;
    if args != [] && IsOption(args[0]) {
      var rest := args[1..];
      PositionalIsFirst(rest);
      if k :| 0 <= k < |rest| && !IsOption(rest[k]) && rest[k] != "" && forall j :: 0 <= j < k ==> IsOption(rest[j]) {
        assert args[k + 1] == rest[k];
        forall j | 0 <= j < k + 1
          ensures IsOption(args[j])
        {
          assert j > 0 ==> args[j] == rest[j - 1];
        }
      }
      if k :| 0 <= k < |args| && !IsOption(args[k]) && args[k] != "" && forall j :: 0 <= j < k ==> IsOption(args[j]) {
        assert rest[k - 1] == args[k] && forall j :: 0 <= j < k - 1 ==> rest[j] == args[j + 1];
      }
    }
  }

  lemma TaskIsNamed(args: seq<string>)
    ensures NamesTask(args) <==> |args| >= 2 && FirstPositional(args[2..]) != ""
  {
    OptionsAreDashed(args);
    hide IsOption, Dashed;
    if |args| >= 2 {
      var rest := args[2..];
      PositionalIsFirst(rest);
      if k :| 0 <= k < |rest| && !IsOption(rest[k]) && rest[k] != "" && forall j :: 0 <= j < k ==> IsOption(rest[j]) {
        assert args[k + 2] == rest[k];
        forall j | 2 <= j < k + 2
          ensures Dashed(args[j])
        {
          assert args[j] == rest[j - 2];
        }
      }
      if k :| 2 <= k < |args| && !Dashed(args[k]) && args[k] != "" && forall j :: 2 <= j < k ==> Dashed(args[j]) {
        assert rest[k - 2] == args[k] && forall j :: 0 <= j < k - 2 ==> rest[j] == args[j + 2];
      }
    }
  }

  // ---------- The state a run starts in ----------

  /** A fresh run of the lane and kind the words name: no work, no verdict, no permission, and the gates confirmed on a full sprint alone. */
  predicate IsFresh(s: ShipState, lane: string, kind: string) {
    && (s.lane == FullSprint <==> lane == "full-sprint") && (s.lane == Hotfix <==> lane == "hotfix") && (s.lane == Debug <==> lane == "debug")
    && (s.hotfixKind == Some(CodeChanging) <==> lane == "hotfix" && kind == "code-changing")
    && (s.hotfixKind == Some(TextOnly) <==> lane == "hotfix" && kind == "text-evidence-only")
    && (s.hotfixKind == None <==> lane != "hotfix")
    && (s.gatesConfirmed <==> lane == "full-sprint")
    && (s.reviewerRequired <==> lane == "full-sprint" || (lane == "hotfix" && kind == "code-changing"))
    && s.attempts == 0 && s.permissions == {} && s.work == Work([], [], []) && s.verdict == None && s.finalization == None && !s.broaderRiskNoted
    && s.at.stage == (if lane == "debug" then Diagnosing else Fresh) && s.at.lastStop == None
  }

  lemma LaneWords(w: string)
    ensures LaneOf(w) == FullSprint <==> w == "full-sprint"
    ensures LaneOf(w) == Hotfix <==> w == "hotfix"
    ensures LaneOf(w) == Debug <==> w == "debug"
  {
  }

  lemma KindWords(w: string)
    ensures KindOf(w) == Some(CodeChanging) <==> w == "code-changing"
    ensures KindOf(w) == Some(TextOnly) <==> w == "text-evidence-only"
    ensures KindOf(w).Some? ==> KindOf(w) == Some(CodeChanging) || KindOf(w) == Some(TextOnly)
  {
  }

  lemma NextWords(w: string)
    ensures NextOf(w) == Some(ToHotfix) <==> w == "hotfix"
    ensures NextOf(w) == Some(ToFullSprint) <==> w == "full-sprint"
    ensures NextOf(w) == Some(ReportOnly) <==> w == "no-code/report-only"
    ensures NextOf(w).Some? ==> !NextOf(w).value.OtherNext?
  {
  }

  lemma InitialIsFresh(i: StartInput, lane: string, kind: string)
    requires i.lane == LaneOf(lane) && !i.lane.OtherLane? && i.hotfixKind == (if i.lane == Hotfix then KindOf(kind) else None)
    requires (i.lane == Hotfix ==> KindOf(kind).Some?) && i.permissions == {} && i.gatesConfirmed == (i.lane == FullSprint)
    ensures IsFresh(Initial(i), lane, kind)
  {
    LaneWords(lane);
    KindWords(kind);
    hide LaneOf, KindOf, Budget;
  }

  // ---------- The command ----------

  /** The words that let a lane start: a sprint needs its gate, a hotfix its kind and a scope. */
  predicate LaneMayStart(lane: string, kind: string, scope: string, gateOpen: bool) {
    || (lane == "full-sprint" && gateOpen)
    || (lane == "hotfix" && (kind == "code-changing" || kind == "text-evidence-only") && scope != "")
    || lane == "debug"
  }

  lemma LaneCheck(lane: string, kind: string, scope: string, gateOpen: bool)
    ensures LaneMayStart(lane, kind, scope, gateOpen)
            <==> !LaneOf(lane).OtherLane? && (LaneOf(lane) == Hotfix ==> KindOf(kind).Some? && scope != "") && (LaneOf(lane) == FullSprint ==> gateOpen)
  {
    LaneWords(lane);
    KindWords(kind);
    hide LaneOf, KindOf;
  }

  /**
   * When the command starts a run: with `--afk`, a task, a lane that may start and an unused safe id. The lane is a full sprint unless `--lane`
   * names another. The run is then fresh, with a budget of at least one, and no other run is touched.
   */
  lemma CommandStartsIff(c: Command, runs: map<string, ShipState>, asked: string, kind: string, scope: string, given: string)
    requires HasValue(c.args, "--lane", asked) && HasValue(c.args, "--hotfix-kind", kind)
    requires HasValue(c.args, "--scope", scope) && HasValue(c.args, "--run-id", given)
    ensures var lane := if "--lane" in c.args then asked else "full-sprint";
            var runId := if given != "" then given else c.generated;
            && (CommandOutcome(c, runs).Started?
                <==> "--afk" in c.args && NamesTask(c.args) && LaneMayStart(lane, kind, scope, GateOpen(c.files, ""))
                     && IsRunId(runId) && runId !in runs)
            && (if CommandOutcome(c, runs).Started?
                then AfterCommand(c, runs) == runs[runId := Initial(CommandInput(c))] && IsFresh(Initial(CommandInput(c)), lane, kind)
                else AfterCommand(c, runs) == runs)
  {
    OptionsAreFound(c.args, "--lane", asked);
    OptionsAreFound(c.args, "--hotfix-kind", kind);
    OptionsAreFound(c.args, "--scope", scope);
    OptionsAreFound(c.args, "--run-id", given);
    var lane := if "--lane" in c.args then asked else "full-sprint";
    TaskIsNamed(c.args);
    RunIdsAreSafe(if given != "" then given else c.generated);
    LaneCheck(lane, kind, scope, GateOpen(c.files, ""));
    hide HasValue, TextAfter, ValueAfter, NamesTask, FirstPositional, LaneMayStart, GateOpen, SafeRunId, IsRunId, Initial, IsFresh, LaneOf, KindOf, SlashBudget;
    if CommandOutcome(c, runs).Started? {
      InitialIsFresh(CommandInput(c), lane, kind);
    }
  }

  /** The command's budget: a given positive number without its fraction, at least one; three where none is given or it is no such number. */
  lemma CommandBudgetIs(c: Command, i: int)
    ensures var b := Initial(CommandInput(c)).retryBudget;
            if FirstAt(c.args, "--retry-budget", i) && i + 1 < |c.args| then
              var n := c.toNumber(c.args[i + 1]);
              if n.Finite? && n.value >= 1.0 then b as real <= n.value < b as real + 1.0
              else if n.Finite? && n.value > 0.0 then b == 1
              else b == 3
            else "--retry-budget" !in c.args ==> b == 3
  {
    FirstIsIndex(c.args, "--retry-budget", i);
    IndexOfFinds(c.args, "--retry-budget");
    var text := ValueAfter(c.args, "--retry-budget");
    var n := SlashBudget(if text.Some? then c.toNumber(text.value) else NaN);
    assert (n as real).Floor == n;
    hide FirstAt, IndexOf, CommandLane, TextAfter, KindOf;
  }

  // ---------- The tool ----------

  /** The same for the tool, which also refuses a debug run with an unknown recommendation. */
  lemma ToolStartsIff(p: StartParams, runs: map<string, ShipState>)
    ensures var runId := if p.runId != "" then p.runId else p.generated;
            && (ToolOutcome(p, runs).Started?
                <==> LaneMayStart(p.lane, p.kind, p.scope, GateOpen(p.files, p.planningRoom))
                     && (p.lane == "debug" ==> p.recommended in ["", "hotfix", "full-sprint", "no-code/report-only"])
                     && IsRunId(runId) && runId !in runs)
            && (if ToolOutcome(p, runs).Started?
                then AfterTool(p, runs) == runs[runId := Initial(ToolInput(p))] && IsFresh(Initial(ToolInput(p)), p.lane, p.kind)
                else AfterTool(p, runs) == runs)
  {
    LaneCheck(p.lane, p.kind, p.scope, GateOpen(p.files, p.planningRoom));
    RunIdsAreSafe(if p.runId != "" then p.runId else p.generated);
    LaneWords(p.lane);
    NextWords(p.recommended);
    NextIsKnown(p.recommended);
    hide LaneMayStart, GateOpen, SafeRunId, IsRunId, Initial, IsFresh, LaneOf, KindOf, NextOf;
    if ToolOutcome(p, runs).Started? {
      InitialIsFresh(ToolInput(p), p.lane, p.kind);
    }
  }

  lemma NextIsKnown(w: string)
    ensures w == "" || NextOf(w).Some? <==> w in ["", "hotfix", "full-sprint", "no-code/report-only"]
  {
  }

  /** What the tool's words say about a debug run's next lanes. */
  lemma ToolFindings(p: StartParams)
    ensures var f := Initial(ToolInput(p)).debug;
            && f.diagnosis == p.diagnosis
            && (f.recommended == Some(ToHotfix) <==> p.recommended == "hotfix")
            && (f.recommended == Some(ToFullSprint) <==> p.recommended == "full-sprint")
            && (f.recommended == Some(ReportOnly) <==> p.recommended == "no-code/report-only")
            && (f.selected == Some(ToHotfix) <==> p.selected == "hotfix")
            && (f.selected == Some(ToFullSprint) <==> p.selected == "full-sprint")
            && (f.selected == Some(ReportOnly) <==> p.selected == "no-code/report-only")
  {
    NextWords(p.recommended);
    NextWords(p.selected);
    hide NextOf, LaneOf, KindOf, Budget, DefaultReviewerRequired;
  }

  /** A number without its fraction and at least zero; three for what is no finite number. */
  predicate IsBudget(given: JsNumber, budget: int) {
    match given
    case Finite(x) => if x < 0.0 then budget == 0 else budget as real <= x < budget as real + 1.0
    case _ => budget == 3
  }

  /** The budget of a created run, and of one the tool starts. */
  lemma BudgetsAre(i: StartInput, p: StartParams)
    ensures IsBudget(i.retryBudget, Initial(i).retryBudget)
    ensures IsBudget(p.budget, Initial(ToolInput(p)).retryBudget)
  {
    hide LaneOf, KindOf, NextOf, DefaultReviewerRequired;
    if p.budget.Finite? {
      assert (Max(0, p.budget.value.Floor) as real).Floor == Max(0, p.budget.value.Floor);
    }
  }
}
