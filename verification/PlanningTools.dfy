/** The planning rooms on disk, the `workflow_planning_state` tool that writes them, and the gates that read them. */
module PlanningTools {
  import opened Js
  import opened Planning
  import Approval

  /** A room pointer file: absent, present without a usable room id, or naming a room. */
  datatype Pointer = NoPointer | BadPointer | PointsTo(room: string)

  /** A planning state file that exists. */
  datatype File = Unreadable | Readable(record: Record)

  datatype ToolError =
    | NoRoom | StateExists | NoState | NoFlags | UnknownFlag | TextMissing | NotExplicit | BadScope | BadKind

  // ---------- Which room ----------

  predicate IsRoomChar(c: char) {
    'a' <= c <= 'z' || '0' <= c <= '9' || c == '-'
  }

  function ValidRoom(text: string): Option<string> {
    var id := Trim(text);
    if id != "" && forall i :: 0 <= i < |id| ==> IsRoomChar(id[i]) then Some(id) else None
  }

  /** The room a tool call other than create works on. */
  function ToolRoom(rooms: map<string, File>, planning: Pointer, workflow: Pointer, asked: string): Option<string> {
    if !Blank(asked) then ValidRoom(asked)
    else
      var fallback :=
        if !workflow.PointsTo? || ValidRoom(workflow.room).None? then None
        else if ValidRoom(workflow.room).value in rooms then ValidRoom(workflow.room) else None;
      match planning
      case NoPointer => fallback
      case BadPointer => None
      case PointsTo(text) =>
        if ValidRoom(text).None? then None
        else if ValidRoom(text).value in rooms then ValidRoom(text) else fallback
  }

  /** The room create works on: the workflow pointer comes first. */
  function CreateRoom(planning: Pointer, workflow: Pointer, asked: string): Option<string> {
    if !Blank(asked) then ValidRoom(asked)
    else if workflow.PointsTo? then ValidRoom(workflow.room)
    else if planning.PointsTo? then ValidRoom(planning.room)
    else None
  }

  datatype GateRoom = Chosen(room: string) | NoneChosen | Invalid

  /** The room a gate looks at. */
  function RoomForGate(rooms: map<string, File>, planning: Pointer, workflow: Pointer, asked: string): GateRoom {
    if !Blank(asked) then
      if ValidRoom(asked).Some? then Chosen(ValidRoom(asked).value) else Invalid
    else
      match planning
      case BadPointer => Invalid
      case NoPointer => RoomFromWorkflow(rooms, workflow, None)
      case PointsTo(text) =>
        if ValidRoom(text).None? then Invalid
        else if ValidRoom(text).value in rooms then Chosen(ValidRoom(text).value)
        else RoomFromWorkflow(rooms, workflow, ValidRoom(text))
  }

  function RoomFromWorkflow(rooms: map<string, File>, workflow: Pointer, planned: Option<string>): GateRoom {
    var last := if planned.Some? then Chosen(planned.value) else NoneChosen;
    if !workflow.PointsTo? then last
    else if ValidRoom(workflow.room).None? then Invalid
    else if ValidRoom(workflow.room).value in rooms then Chosen(ValidRoom(workflow.room).value)
    else last
  }

  datatype GateKind = SprintKind | ImplementationKind

  function EvaluateGate(rooms: map<string, File>, planning: Pointer, workflow: Pointer, asked: string, kind: GateKind, bypass: bool): Gate {
    var choice := RoomForGate(rooms, planning, workflow, asked);
    if choice.Invalid? then Gate(false, [RoomIdInvalid], ALL_FLAGS)
    else
      var state :=
        if choice.Chosen? && choice.room in rooms && rooms[choice.room].Readable? then Some(rooms[choice.room].record) else None;
      if kind.SprintKind? then SprintGate(state, bypass) else ImplementationGate(state, bypass)
  }

  /** Tools and gates agree: a gate looks at a room that has a state file exactly when the tool, asked the same way, would write that room. */
  lemma GatesReadWhatToolsWrite(rooms: map<string, File>, planning: Pointer, workflow: Pointer, asked: string, room: string)
    requires room in rooms
    ensures RoomForGate(rooms, planning, workflow, asked) == Chosen(room) <==> ToolRoom(rooms, planning, workflow, asked) == Some(room)
  {
    hide Blank, ValidRoom;
  }

  /** What an open gate saw: a state file at the tool's room, of a scope that is not tiny, with the gate's flags set. */
  predicate OpenRecord(r: Record, kind: GateKind) {
    !r.scope.TinyDebug? && r.invalidatedBy.None? && {PrdStarted, PrdReady, SprintConfirmed} <= r.flags
    && (kind.ImplementationKind? ==> ImplementationConfirmed in r.flags)
  }

  /** An open gate was read from a state file, never from a missing or unreadable one. */
  lemma OpenGateHasState(rooms: map<string, File>, planning: Pointer, workflow: Pointer, asked: string, kind: GateKind)
    ensures EvaluateGate(rooms, planning, workflow, asked, kind, false).allowed
            <==> (var room := ToolRoom(rooms, planning, workflow, asked);
                  room.Some? && room.value in rooms && rooms[room.value].Readable? && OpenRecord(rooms[room.value].record, kind))
  {
    var choice := RoomForGate(rooms, planning, workflow, asked);
    var room := ToolRoom(rooms, planning, workflow, asked);
    if choice.Chosen? && choice.room in rooms {
      GatesReadWhatToolsWrite(rooms, planning, workflow, asked, choice.room);
      if rooms[choice.room].Readable? {
        OpenRecordIff(rooms[choice.room].record, kind);
      }
    }
    if room.Some? && room.value in rooms {
      GatesReadWhatToolsWrite(rooms, planning, workflow, asked, room.value);
    }
    hide RoomForGate, ToolRoom, FlagGate, OpenRecord;
  }

  lemma OpenRecordIff(r: Record, kind: GateKind)
    ensures OpenRecord(r, kind) <==> (if kind.SprintKind? then SprintGate(Some(r), false) else ImplementationGate(Some(r), false)).allowed
  {
    GatesIff(r);
    hide SprintGate, ImplementationGate;
    if OpenRecord(r, ImplementationKind) {
      forall f: Flag
        ensures f in r.flags
      {
        match f
        case PrdStarted =>
        case PrdReady =>
        case SprintConfirmed =>
        case ImplementationConfirmed =>
      }
    }
  }

  // ---------- set_flag ----------

  datatype FlagParams = FlagParams(single: Option<string>, list: Option<seq<string>>, value: Option<bool>, values: seq<Option<bool>>, text: string)

  function Names(p: FlagParams): seq<string> {
    if p.list.Some? then p.list.value
    else if p.single.Some? && p.single.value != "" then [p.single.value] else []
  }

  function AsFlag(raw: string): Option<Flag> {
    match Trim(raw)
    case "prd_started" => Some(PrdStarted)
    case "prd_ready_for_sprint" => Some(PrdReady)
    case "sprint_confirmed" => Some(SprintConfirmed)
    case "implementation_confirmed" => Some(ImplementationConfirmed)
    case _ => None
  }

  function FirstIndex(list: seq<string>, item: string): nat {
    if list == [] || list[0] == item then 0 else 1 + FirstIndex(list[1..], item)
  }

  function ValueFor(p: FlagParams, raw: string): bool {
    var given :=
      if p.list.Some? then
        var i := FirstIndex(p.list.value, raw);
        if i < |p.values| then p.values[i] else None
      else p.value;
    if given.Some? then given.value else true
  }

  /** The stage a flag stands for, when writing it needs the user's words. */
  function StageOf(u: Update): Option<Approval.Stage> {
    if !u.value then None
    else if u.flag.SprintConfirmed? then Some(Approval.Sprint)
    else if u.flag.ImplementationConfirmed? then Some(Approval.Implementation)
    else None
  }

  predicate Mentioned(updates: seq<Update>, f: Flag) {
    exists i :: 0 <= i < |updates| && updates[i].flag == f
  }

  /** The updates of the first `n` names, or the first refusal among them. */
  function Collect(p: FlagParams, n: nat): Result<seq<Update>, ToolError>
    requires n <= |Names(p)|
  {
    if n == 0 then Ok([])
    else
      var before := Collect(p, n - 1);
      var raw := Names(p)[n - 1];
      if before.Err? then before
      else if AsFlag(raw).None? then Err(UnknownFlag)
      else if Mentioned(before.value, AsFlag(raw).value) then before
      else
        var u := Update(AsFlag(raw).value, ValueFor(p, raw));
        if StageOf(u).Some? && Blank(p.text) then Err(TextMissing)
        else if StageOf(u).Some? && Approval.ExplicitStage(Trim(p.text)) != StageOf(u) then Err(NotExplicit)
        else Ok(before.value + [u])
  }

  /** Every confirmation in the write is one the text explicitly makes. */
  ghost predicate Backed(op: Op, text: string) {
    op.SetFlags? ==> forall i :: 0 <= i < |op.updates| && StageOf(op.updates[i]).Some? ==> Approval.ExplicitStage(text) == StageOf(op.updates[i])
  }

  /** An accepted write mentions each flag once and confirms at most the one stage its text names. */
  lemma {:induction false} AcceptedWritesAreBacked(p: FlagParams, n: nat)
    requires n <= |Names(p)| && Collect(p, n).Ok?
    ensures var updates := Collect(p, n).value;
            && Backed(SetFlags(updates), Trim(p.text))
            && (forall i, j :: 0 <= i < j < |updates| ==> updates[i].flag != updates[j].flag)
  {
    if n > 0 {
      hide AsFlag, Trim, ValueFor, Blank, Names, Approval.ExplicitStage;
      AcceptedWritesAreBacked(p, n - 1);
    }
  }

  /** No single call confirms both stages. */
  lemma OneStagePerCall(p: FlagParams)
    requires Collect(p, |Names(p)|).Ok?
    ensures var updates := Collect(p, |Names(p)|).value; !(Update(SprintConfirmed, true) in updates && Update(ImplementationConfirmed, true) in updates)
  {
    AcceptedWritesAreBacked(p, |Names(p)|);
    hide Collect, Names, Trim;
    hide Approval.ExplicitStage;
  }

  lemma {:induction false} LastValueIsThere(updates: seq<Update>, f: Flag)
    ensures LastValue(updates, f).Some? ==> Update(f, LastValue(updates, f).value) in updates
  {
    if updates != [] {
      LastValueIsThere(updates[..|updates| - 1], f);
    }
  }

  /** A text that confirms the implementation stage: no negation in it, and the stage named in whole words. */
  ghost predicate ConfirmsImplementation(text: string) {
    && Approval.ExplicitStage(text) == Some(Approval.Implementation)
    && !Approval.Negated(Approval.Normalized(text))
    && Approval.SaysOneOf(Approval.Normalized(text), Approval.IMPLEMENTATION_WORDS)
  }
}
