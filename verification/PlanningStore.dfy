/** The planning files as the tool calls update them in place. */
module PlanningStore {
  import opened Js
  import opened Planning
  import opened PlanningTools
  import Approval
  import Calls = PlanningCalls

  lemma OneMore<T>(s: seq<T>, i: nat)
    requires i < |s|
    ensures s[..i + 1][..i] == s[..i] && s[..i + 1][i] == s[i] && |s[..i + 1]| == i + 1
  {
  }

  /** The write of several flags: each update that changes something leaves a row, and a pending invalidation is dropped. */
  method ApplyFlagUpdates(current: Record, updates: seq<Update>) returns (next: Record)
    ensures next == Step(current, SetFlags(updates))
  {
    var flags, rows := current.flags, current.rows;
    for i := 0 to |updates|
      invariant flags == FlagsAfter(current.flags, updates[..i])
      invariant rows == current.rows + RowsFor(current.flags, updates[..i])
    {
      OneMore(updates, i);
      var u := updates[i];
      if (u.flag in flags) != u.value {
        rows := rows + [Row(u.flag, u.value)];
      }
      flags := if u.value then flags + {u.flag} else flags - {u.flag};
    }
    assert updates[..|updates|] == updates;
    next := Record(current.scope, flags, rows, None);
  }

  class PlanningFiles {
    var rooms: map<string, File>
    var planning: Pointer
    var workflow: Pointer

    constructor (workflow: Pointer)
      ensures rooms == map[] && planning == NoPointer && this.workflow == workflow
    {
      rooms, planning, this.workflow := map[], NoPointer, workflow;
    }

    ghost function Contents(): Calls.Files
      reads this
    {
      Calls.Files(rooms, planning, workflow)
    }

    /** Writing a record also moves the planning pointer to its room. */
    method WriteState(room: string, record: Record)
      modifies this
      ensures rooms == old(rooms)[room := Readable(record)] && planning == PointsTo(room) && workflow == old(workflow)
    {
      rooms := rooms[room := Readable(record)];
      planning := PointsTo(room);
    }

    method Create(asked: string, scope: Option<Scope>) returns (err: Option<ToolError>)
      modifies this
      ensures var room := CreateRoom(old(planning), old(workflow), asked);
              if room.Some? && scope.Some? && room.value !in old(rooms)
              then err == None && rooms == old(rooms)[room.value := Readable(New(scope.value, {}))] && planning == PointsTo(room.value)
              else err.Some? && rooms == old(rooms) && planning == old(planning)
      ensures Contents() == Calls.After(old(Contents()), Calls.Create(asked, scope))
      ensures workflow == old(workflow)
    {
      var room := CreateRoom(planning, workflow, asked);
      if room.None? {
        return Some(NoRoom);
      }
      if scope.None? {
        return Some(BadScope);
      }
      if room.value in rooms {
        return Some(StateExists);
      }
      WriteState(room.value, Record(scope.value, {}, [], None));
      err := None;
    }

    /** `set_flag`: all the updates in one write, or a refusal that changes nothing. */
    method SetFlag(asked: string, p: FlagParams) returns (err: Option<ToolError>)
      modifies this
      ensures var room := ToolRoom(old(rooms), old(planning), old(workflow), asked);
              var names := Names(p);
              if room.None? then err == Some(NoRoom)
              else if room.value !in old(rooms) || old(rooms)[room.value].Unreadable? then err == Some(NoState)
              else if names == [] then err == Some(NoFlags)
              else match Collect(p, |names|)
                case Err(e) => err == Some(e)
                case Ok(updates) =>
                  && err == None && planning == PointsTo(room.value)
                  && rooms == old(rooms)[room.value := Readable(Step(old(rooms)[room.value].record, SetFlags(updates)))]
      ensures err.Some? ==> rooms == old(rooms) && planning == old(planning)
      ensures Contents() == Calls.After(old(Contents()), Calls.SetFlag(asked, p))
      ensures workflow == old(workflow)
    {
      var room := ToolRoom(rooms, planning, workflow, asked);
      if room.None? {
        return Some(NoRoom);
      }
      if room.value !in rooms || rooms[room.value].Unreadable? {
        return Some(NoState);
      }
      var names := Names(p);
      if |names| == 0 {
        return Some(NoFlags);
      }
      var updates, e := CollectUpdates(p, names);
      if e.Some? {
        return e;
      }
      var next := ApplyFlagUpdates(rooms[room.value].record, updates);
      WriteState(room.value, next);
      err := None;
    }

    method Invalidated(asked: string, kind: Option<Kind>) returns (err: Option<ToolError>)
      modifies this
      ensures var room := ToolRoom(old(rooms), old(planning), old(workflow), asked);
              if room.Some? && room.value in old(rooms) && old(rooms)[room.value].Readable? && kind.Some?
              then err == None && planning == PointsTo(room.value)
                && rooms == old(rooms)[room.value := Readable(Step(old(rooms)[room.value].record, Invalidate(kind.value)))]
              else err.Some? && rooms == old(rooms) && planning == old(planning)
      ensures Contents() == Calls.After(old(Contents()), Calls.Invalidated(asked, kind))
      ensures workflow == old(workflow)
    {
      var room := ToolRoom(rooms, planning, workflow, asked);
      if room.None? {
        return Some(NoRoom);
      }
      if room.value !in rooms || rooms[room.value].Unreadable? {
        return Some(NoState);
      }
      if kind.None? {
        return Some(BadKind);
      }
      var current := rooms[room.value].record;
      var flags, rows := current.flags, current.rows;
      var cleared := Cleared(kind.value);
      for i := 0 to |cleared|
        invariant flags == current.flags - set f | f in cleared[..i]
        invariant rows == current.rows + ClearRows(kind.value)[..i]
      {
        flags := flags - {cleared[i]};
        rows := rows + [Row(cleared[i], false)];
      }
      assert cleared[..|cleared|] == cleared && ClearRows(kind.value)[..|cleared|] == ClearRows(kind.value);
      WriteState(room.value, Record(current.scope, flags, rows, kind));
      err := None;
    }

    method SetScopeClassification(asked: string, scope: Option<Scope>) returns (err: Option<ToolError>)
      modifies this
      ensures var room := ToolRoom(old(rooms), old(planning), old(workflow), asked);
              if room.Some? && room.value in old(rooms) && old(rooms)[room.value].Readable? && scope.Some?
              then err == None && planning == PointsTo(room.value)
                && rooms == old(rooms)[room.value := Readable(Step(old(rooms)[room.value].record, SetScope(scope.value)))]
              else err.Some? && rooms == old(rooms) && planning == old(planning)
      ensures Contents() == Calls.After(old(Contents()), Calls.SetScopeClassification(asked, scope))
      ensures workflow == old(workflow)
    {
      var room := ToolRoom(rooms, planning, workflow, asked);
      if room.None? {
        return Some(NoRoom);
      }
      if room.value !in rooms || rooms[room.value].Unreadable? {
        return Some(NoState);
      }
      if scope.None? {
        return Some(BadScope);
      }
      var current := rooms[room.value].record;
      var rows := current.rows + [Row(PrdStarted, PrdStarted in current.flags)];
      if !current.scope.NonTrivial? && (scope.value.NonTrivial? || scope.value.ExpandedFromTiny?) {
        var flags := current.flags - {PrdReady, SprintConfirmed, ImplementationConfirmed};
        assert ClearedSet(PrdOrScope) == {PrdReady, SprintConfirmed, ImplementationConfirmed};
        assert ClearRows(PrdOrScope) == [Row(PrdReady, false), Row(SprintConfirmed, false), Row(ImplementationConfirmed, false)];
        rows := rows + [Row(PrdReady, false), Row(SprintConfirmed, false), Row(ImplementationConfirmed, false)];
        WriteState(room.value, Record(scope.value, flags, rows, Some(PrdOrScope)));
      } else {
        WriteState(room.value, Record(scope.value, current.flags, rows, current.invalidatedBy));
      }
      err := None;
    }
  }

  method CollectUpdates(p: FlagParams, names: seq<string>) returns (updates: seq<Update>, err: Option<ToolError>)
    requires names == Names(p)
    ensures err == (match Collect(p, |names|) case Err(e) => Some(e) case Ok(_) => None)
    ensures err.None? ==> updates == Collect(p, |names|).value
  {
    hide AsFlag, Names, ValueFor, StageOf, Mentioned, Blank, Trim, Approval.ExplicitStage;
    updates := [];
    var seen := {};
    NothingMentioned();
    for i := 0 to |names|
      invariant Collect(p, i) == Ok(updates)
      invariant forall f :: f in seen <==> Mentioned(updates, f)
    {
      var flag := AsFlag(names[i]);
      if flag.None? {
        CollectErrs(p, i + 1, |names|);
        return updates, Some(UnknownFlag);
      }
      if flag.value !in seen {
        seen := seen + {flag.value};
        var u := Update(flag.value, ValueFor(p, names[i]));
        var stage := StageOf(u);
        if stage.Some? {
          if Blank(p.text) {
            CollectErrs(p, i + 1, |names|);
            return updates, Some(TextMissing);
          }
          if Approval.ExplicitStage(Trim(p.text)) != stage {
            CollectErrs(p, i + 1, |names|);
            return updates, Some(NotExplicit);
          }
        }
        OneMoreMentioned(updates, u);
        updates := updates + [u];
      }
    }
    err := None;
  }

  lemma NothingMentioned()
    ensures forall f :: !Mentioned([], f)
  {
  }

  lemma OneMoreMentioned(updates: seq<Update>, u: Update)
    ensures forall f :: Mentioned(updates + [u], f) <==> Mentioned(updates, f) || f == u.flag
  {
    forall f
      ensures Mentioned(updates + [u], f) <==> Mentioned(updates, f) || f == u.flag
    {
      assert (updates + [u])[|updates|] == u;
      if Mentioned(updates, f) {
        var i :| 0 <= i < |updates| && updates[i].flag == f;
        assert (updates + [u])[i].flag == f;
      }
    }
  }

  /** The first refusal is the call's refusal. */
  lemma {:induction false} CollectErrs(p: FlagParams, i: nat, n: nat)
    requires i <= n <= |Names(p)| && Collect(p, i).Err?
    ensures Collect(p, n) == Collect(p, i)
  {
    hide AsFlag, Names, ValueFor, StageOf, Mentioned, Blank, Trim, Approval.ExplicitStage;
    if i < n {
      CollectErrs(p, i, n - 1);
    }
  }

  /** After a write, a gate that is not told a room looks at the room just written. */
  lemma GatesFollowTheLastWrite(rooms: map<string, File>, workflow: Pointer, room: string)
    requires room in rooms && ValidRoom(room) == Some(room)
    ensures RoomForGate(rooms, PointsTo(room), workflow, "") == Chosen(room)
  {
    assert Blank("");
  }
}
