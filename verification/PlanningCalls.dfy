/** Sequences of planning tool calls over many rooms and moving pointers, and what an open gate says about them. */
module PlanningCalls {
  import opened Js
  import opened Planning
  import opened PlanningTools
  import Approval

  /** The planning files: a state file per room, and the two room pointers. */
  datatype Files = Files(rooms: map<string, File>, planning: Pointer, workflow: Pointer)

  /** The tool's actions, and the workflow pointer being set to anything by others. */
  datatype Call =
    | Create(asked: string, scope: Option<Scope>)
    | SetFlag(asked: string, p: FlagParams)
    | Invalidated(asked: string, kind: Option<Kind>)
    | SetScopeClassification(asked: string, next: Option<Scope>)
    | PointWorkflow(pointer: Pointer)

  /** The room and scope of a create that is accepted. */
  function Creates(f: Files, call: Call): Option<(string, Scope)> {
    if !call.Create? then None
    else
      var room := CreateRoom(f.planning, f.workflow, call.asked);
      if room.Some? && call.scope.Some? && room.value !in f.rooms then Some((room.value, call.scope.value)) else None
  }

  /** What an accepted call other than create does to a record. */
  function OpOf(call: Call): Option<Op> {
    match call
    case SetFlag(_, p) => if Names(p) != [] && Collect(p, |Names(p)|).Ok? then Some(SetFlags(Collect(p, |Names(p)|).value)) else None
    case Invalidated(_, kind) => if kind.Some? then Some(Invalidate(kind.value)) else None
    case SetScopeClassification(_, next) => if next.Some? then Some(SetScope(next.value)) else None
    case _ => None
  }

  /** The room an accepted call other than create works on. */
  function Changes(f: Files, call: Call): Option<string> {
    if call.Create? || call.PointWorkflow? || OpOf(call).None? then None
    else
      var room := ToolRoom(f.rooms, f.planning, f.workflow, call.asked);
      if room.Some? && room.value in f.rooms && f.rooms[room.value].Readable? then room else None
  }

  function After(f: Files, call: Call): Files {
    if Creates(f, call).Some? then
      var (room, scope) := Creates(f, call).value;
      Files(f.rooms[room := Readable(New(scope, {}))], PointsTo(room), f.workflow)
    else if Changes(f, call).Some? then
      var room := Changes(f, call).value;
      Files(f.rooms[room := Readable(Step(f.rooms[room].record, OpOf(call).value))], PointsTo(room), f.workflow)
    else if call.PointWorkflow? then f.(workflow := call.pointer)
    else f
  }

  function FilesAfter(start: Files, calls: seq<Call>): Files {
    if calls == [] then start else After(FilesAfter(start, calls[..|calls| - 1]), calls[|calls| - 1])
  }

  // ---------- What opened a gate ----------

  /** What the call at `k` did to the room's record, if it was accepted there. */
  function OpOn(start: Files, calls: seq<Call>, k: nat, room: string): Option<Op>
    requires k < |calls|
  {
    if Changes(FilesAfter(start, calls[..k]), calls[k]) == Some(room) then OpOf(calls[k]) else None
  }

  function ScopeAt(start: Files, calls: seq<Call>, k: nat, room: string): Scope
    requires k < |calls| && OpOn(start, calls, k, room).Some?
  {
    FilesAfter(start, calls[..k]).rooms[room].record.scope
  }

  /** The call at `k` cleared the flag in the room. */
  predicate ClearsAt(start: Files, calls: seq<Call>, k: nat, room: string, f: Flag)
    requires k < |calls|
  {
    OpOn(start, calls, k, room).Some? && Clears(ScopeAt(start, calls, k, room), OpOn(start, calls, k, room).value, f)
  }

  /** The call at `k` was an accepted `set_flag` on the room that set the flag, with a text that names its stage if it has one. */
  ghost predicate SetsAt(start: Files, calls: seq<Call>, k: nat, room: string, f: Flag)
    requires k < |calls|
  {
    && calls[k].SetFlag? && OpOn(start, calls, k, room).Some? && Sets(OpOn(start, calls, k, room).value, f)
    && (StageOf(Update(f, true)).Some? ==> Approval.ExplicitStage(Trim(calls[k].p.text)) == StageOf(Update(f, true)))
  }

  ghost predicate ConfirmedAt(start: Files, calls: seq<Call>, k: int, room: string, f: Flag) {
    0 <= k < |calls| && SetsAt(start, calls, k, room, f) && forall j :: k < j < |calls| ==> !ClearsAt(start, calls, j, room, f)
  }

  ghost predicate Confirmed(start: Files, calls: seq<Call>, room: string, f: Flag) {
    exists k :: ConfirmedAt(start, calls, k, room, f)
  }

  predicate HasFlag(f: Files, room: string, flag: Flag) {
    room in f.rooms && f.rooms[room].Readable? && flag in f.rooms[room].record.flags
  }

  /** An accepted write that sets a staged flag was made with a text naming the stage. */
  lemma WritesNameTheirStage(p: FlagParams, f: Flag)
    requires Collect(p, |Names(p)|).Ok? && Sets(SetFlags(Collect(p, |Names(p)|).value), f)
    ensures StageOf(Update(f, true)).Some? ==> Approval.ExplicitStage(Trim(p.text)) == StageOf(Update(f, true))
  {
    var updates := Collect(p, |Names(p)|).value;
    AcceptedWritesAreBacked(p, |Names(p)|);
    LastValueIsThere(updates, f);
    hide Collect, Approval.ExplicitStage, Trim, Names, StageOf;
    var k :| 0 <= k < |updates| && updates[k] == Update(f, true);
  }

  /** Where the flag comes from, one call at a time. */
  lemma FlagAfterCall(f: Files, call: Call, room: string, flag: Flag)
    requires HasFlag(After(f, call), room, flag)
    ensures if Changes(f, call) == Some(room)
            then Sets(OpOf(call).value, flag) || (HasFlag(f, room, flag) && !Clears(f.rooms[room].record.scope, OpOf(call).value, flag))
            else HasFlag(f, room, flag)
  {
    hide OpOf, CreateRoom, ToolRoom, Sets, Clears, Step;
    if Changes(f, call) == Some(room) {
      StepFlag(f.rooms[room].record, OpOf(call).value, flag);
    }
  }

  lemma ConfirmedNow(start: Files, calls: seq<Call>, room: string, f: Flag)
    requires calls != []
    requires var n := |calls| - 1; OpOn(start, calls, n, room).Some? && Sets(OpOn(start, calls, n, room).value, f)
    ensures Confirmed(start, calls, room, f)
  {
    var n := |calls| - 1;
    hide FilesAfter, Changes, Collect, StageOf, Approval.ExplicitStage, Trim, LastValue;
    assert calls[n].SetFlag?;
    WritesNameTheirStage(calls[n].p, f);
    assert ConfirmedAt(start, calls, n, room, f);
  }

  lemma SamePrefix(start: Files, calls: seq<Call>, k: nat, room: string, f: Flag)
    requires k + 1 < |calls|
    ensures OpOn(start, calls[..|calls| - 1], k, room) == OpOn(start, calls, k, room)
    ensures ClearsAt(start, calls[..|calls| - 1], k, room, f) == ClearsAt(start, calls, k, room, f)
    ensures SetsAt(start, calls[..|calls| - 1], k, room, f) == SetsAt(start, calls, k, room, f)
  {
    var front := calls[..|calls| - 1];
    assert front[..k] == calls[..k] && front[k] == calls[k];
    hide FilesAfter, Changes, OpOf, Sets, Clears, StageOf, Trim, Approval.ExplicitStage;
  }

  lemma StaysConfirmed(start: Files, calls: seq<Call>, room: string, f: Flag)
    requires calls != [] && Confirmed(start, calls[..|calls| - 1], room, f) && !ClearsAt(start, calls, |calls| - 1, room, f)
    ensures Confirmed(start, calls, room, f)
  {
    hide SetsAt, ClearsAt, OpOn, ScopeAt, FilesAfter;
    var front := calls[..|calls| - 1];
    var k :| ConfirmedAt(start, front, k, room, f);
    SamePrefix(start, calls, k, room, f);
    forall j | k < j < |calls|
      ensures !ClearsAt(start, calls, j, room, f)
    {
      if j < |front| {
        SamePrefix(start, calls, j, room, f);
      }
    }
    assert ConfirmedAt(start, calls, k, room, f);
  }

  /** A flag that stands in a room was set there by an accepted call, in words where it needs them, and not cleared since. */
  lemma {:induction false} FlagsWereConfirmed(start: Files, calls: seq<Call>, room: string, f: Flag)
    requires start.rooms == map[] && HasFlag(FilesAfter(start, calls), room, f)
    ensures Confirmed(start, calls, room, f)
  {
    if calls != [] {
      var n := |calls| - 1;
      var before := FilesAfter(start, calls[..n]);
      FlagAfterCall(before, calls[n], room, f);
      if OpOn(start, calls, n, room).Some? && Sets(OpOn(start, calls, n, room).value, f) {
        ConfirmedNow(start, calls, room, f);
      } else {
        hide After, Confirmed, Sets, Clears, OpOf, Step;
        FlagsWereConfirmed(start, calls[..n], room, f);
        StaysConfirmed(start, calls, room, f);
      }
    }
  }

  /** No later call invalidated the room's record or promoted its scope. */
  predicate UnsettledAt(start: Files, calls: seq<Call>, k: nat, room: string)
    requires k < |calls|
  {
    OpOn(start, calls, k, room).Some? && Invalidates(ScopeAt(start, calls, k, room), OpOn(start, calls, k, room).value)
  }

  /**
   * Over any sequence of tool calls on any rooms, with the workflow pointer moving freely: an implementation gate that is open without
   * bypass, asked for a room or not, looks at a room where each of the four flags was set by an accepted call and not
   * cleared since; the two confirmations were given in texts that name their stage without a negation; and after the implementation
   * was confirmed no call invalidated the room or promoted its scope.
   */
  lemma OpenGateWasConfirmedInWords(start: Files, calls: seq<Call>, asked: string)
    requires start.rooms == map[]
    requires var f := FilesAfter(start, calls); EvaluateGate(f.rooms, f.planning, f.workflow, asked, ImplementationKind, false).allowed
    ensures var f := FilesAfter(start, calls);
            var room := ToolRoom(f.rooms, f.planning, f.workflow, asked);
            && room.Some? && (forall flag: Flag :: Confirmed(start, calls, room.value, flag))
            && exists k :: ConfirmedInWords(start, calls, k, room.value)
  {
    hide EvaluateGate, ToolRoom, FilesAfter, Confirmed, ConfirmedInWords, HasFlag;
    var f := FilesAfter(start, calls);
    OpenGateHasFlags(f, asked);
    var room := ToolRoom(f.rooms, f.planning, f.workflow, asked).value;
    forall flag: Flag
      ensures Confirmed(start, calls, room, flag)
    {
      FlagsWereConfirmed(start, calls, room, flag);
    }
    SomeCallConfirmed(start, calls, room);
  }

  lemma OpenGateHasFlags(f: Files, asked: string)
    requires EvaluateGate(f.rooms, f.planning, f.workflow, asked, ImplementationKind, false).allowed
    ensures var room := ToolRoom(f.rooms, f.planning, f.workflow, asked);
            room.Some? && forall flag: Flag :: HasFlag(f, room.value, flag)
  {
    OpenGateHasState(f.rooms, f.planning, f.workflow, asked, ImplementationKind);
    hide EvaluateGate, ToolRoom;
    var record := f.rooms[ToolRoom(f.rooms, f.planning, f.workflow, asked).value].record;
    assert PrdStarted in record.flags && PrdReady in record.flags && SprintConfirmed in record.flags && ImplementationConfirmed in record.flags;
    forall flag: Flag
      ensures flag in record.flags
    {
      match flag
      case PrdStarted =>
      case PrdReady =>
      case SprintConfirmed =>
      case ImplementationConfirmed =>
    }
  }

  /** The call at `k` confirmed the implementation in words, and nothing since has unsettled it. */
  ghost predicate ConfirmedInWords(start: Files, calls: seq<Call>, k: int, room: string) {
    && ConfirmedAt(start, calls, k, room, ImplementationConfirmed)
    && ConfirmsImplementation(Trim(calls[k].p.text))
    && forall j :: k < j < |calls| ==> !UnsettledAt(start, calls, j, room)
  }

  lemma SomeCallConfirmed(start: Files, calls: seq<Call>, room: string)
    requires Confirmed(start, calls, room, ImplementationConfirmed)
    ensures exists k :: ConfirmedInWords(start, calls, k, room)
  {
    hide OpOn, ScopeAt, FilesAfter, ClearsAt, UnsettledAt, SetsAt, ConfirmsImplementation;
    var k :| ConfirmedAt(start, calls, k, room, ImplementationConfirmed);
    SetInWords(start, calls, k, room);
    forall j | k < j < |calls|
      ensures !UnsettledAt(start, calls, j, room)
    {
      UnsettlingClears(start, calls, j, room);
    }
    assert ConfirmedInWords(start, calls, k, room);
  }

  lemma SetInWords(start: Files, calls: seq<Call>, k: nat, room: string)
    requires k < |calls| && SetsAt(start, calls, k, room, ImplementationConfirmed)
    ensures calls[k].SetFlag? && ConfirmsImplementation(Trim(calls[k].p.text))
  {
    hide OpOn, Trim, Sets, Approval.ExplicitStage, Approval.Negated, Approval.Normalized, Approval.SaysOneOf;
    Approval.ConfirmationsNameTheirStage(Trim(calls[k].p.text), Approval.Implementation);
  }

  /** Every invalidation and every promotion clears the implementation confirmation. */
  lemma UnsettlingClears(start: Files, calls: seq<Call>, k: nat, room: string)
    requires k < |calls|
    ensures UnsettledAt(start, calls, k, room) ==> ClearsAt(start, calls, k, room, ImplementationConfirmed)
  {
    hide OpOn, ScopeAt, LastValue;
  }
}
