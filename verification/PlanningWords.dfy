/** What one planning tool call does and says: the words that name flags, the room it works on, the record it leaves and the gate codes. */
module PlanningWords {
  import opened Js
  import opened Planning
  import opened PlanningTools
  import Approval

  // ---------- The names in a call ----------

  function WordOf(f: Flag): string {
    match f
    case PrdStarted => "prd_started"
    case PrdReady => "prd_ready_for_sprint"
    case SprintConfirmed => "sprint_confirmed"
    case ImplementationConfirmed => "implementation_confirmed"
  }

  /** The names a call gives: its list, or without one its single name unless that is empty. */
  predicate AreGiven(p: FlagParams, names: seq<string>) {
    if p.list.Some? then names == p.list.value
    else if p.single.None? || p.single.value == "" then names == []
    else names == [p.single.value]
  }

  predicate NameAt(names: seq<string>, i: int, f: Flag) {
    0 <= i < |names| && Trim(names[i]) == WordOf(f)
  }

  predicate FirstNamed(names: seq<string>, i: int, f: Flag) {
    NameAt(names, i, f) && forall j :: 0 <= j < i ==> !NameAt(names, j, f)
  }

  /** The value a call gives with its `i`-th name; true where none is given. */
  function GivenValue(p: FlagParams, i: nat): bool {
    var given := if p.list.None? then p.value else if i < |p.values| then p.values[i] else None;
    given == None || given == Some(true)
  }

  /** Setting a confirmation takes a text that names its stage. */
  predicate Permitted(text: string, f: Flag, value: bool) {
    && (f == SprintConfirmed && value ==> !Blank(text) && Approval.ExplicitStage(Trim(text)) == Some(Approval.Sprint))
    && (f == ImplementationConfirmed && value ==> !Blank(text) && Approval.ExplicitStage(Trim(text)) == Some(Approval.Implementation))
  }

  lemma NamesAreGiven(p: FlagParams)
    ensures AreGiven(p, Names(p))
  {
  }

  lemma FlagWords(raw: string, f: Flag)
    ensures AsFlag(raw) == Some(f) <==> Trim(raw) == WordOf(f)
  {
    hide Trim;
  }

  lemma {:induction false} FirstIndexIs(list: seq<string>, i: nat)
    requires i < |list| && forall j :: 0 <= j < i ==> list[j] != list[i]
    ensures FirstIndex(list, list[i]) == i
  {
    if i > 0 {
      FirstIndexIs(list[1..], i - 1);
    }
  }

  lemma ValueIsGiven(p: FlagParams, f: Flag, i: nat)
    requires FirstNamed(Names(p), i, f)
    ensures ValueFor(p, Names(p)[i]) == GivenValue(p, i)
  {
    hide Trim;
    if p.list.Some? {
      var list := p.list.value;
      forall j | 0 <= j < i
        ensures list[j] != list[i]
      {
        assert !NameAt(list, j, f);
      }
      FirstIndexIs(list, i);
    }
  }

  lemma StageIsPermitted(text: string, f: Flag, value: bool)
    ensures Permitted(text, f, value)
            <==> StageOf(Update(f, value)).Some? ==> !Blank(text) && Approval.ExplicitStage(Trim(text)) == StageOf(Update(f, value))
  {
    hide Trim, Blank, Approval.ExplicitStage;
  }

  // ---------- What the first names of a call come to ----------

  predicate KnownAt(names: seq<string>, i: int) {
    NameAt(names, i, PrdStarted) || NameAt(names, i, PrdReady) || NameAt(names, i, SprintConfirmed) || NameAt(names, i, ImplementationConfirmed)
  }

  ghost predicate AllPermitted(p: FlagParams, names: seq<string>, n: nat) {
    && (forall i :: 0 <= i < n ==> KnownAt(names, i))
    && (forall i: nat, f :: i < n && FirstNamed(names, i, f) ==> Permitted(p.text, f, GivenValue(p, i)))
  }

  ghost predicate FirstBelow(names: seq<string>, n: nat, f: Flag) {
    exists i: nat :: i < n && FirstNamed(names, i, f)
  }

  ghost predicate ValuesHeld(p: FlagParams, names: seq<string>, n: nat, updates: seq<Update>) {
    forall i: nat, f :: i < n && FirstNamed(names, i, f) ==> Update(f, GivenValue(p, i)) in updates
  }

  ghost predicate Holds(p: FlagParams, names: seq<string>, n: nat, updates: seq<Update>) {
    ValuesHeld(p, names, n, updates) && forall f :: Mentioned(updates, f) <==> FirstBelow(names, n, f)
  }

  lemma {:induction false} FirstOf(names: seq<string>, i: nat, f: Flag) returns (k: nat)
    requires NameAt(names, i, f)
    ensures k <= i && FirstNamed(names, k, f)
    decreases i
  {
    hide NameAt;
    if j :| 0 <= j < i && NameAt(names, j, f) {
      k := FirstOf(names, j, f);
    } else {
      k := i;
    }
  }

  lemma WordsDiffer(names: seq<string>, i: int, f: Flag, g: Flag)
    requires NameAt(names, i, f) && NameAt(names, i, g)
    ensures f == g
  {
    FlagWords(names[i], f);
    FlagWords(names[i], g);
    hide Trim, AsFlag;
  }

  lemma KnownIsFlag(names: seq<string>, i: nat)
    requires i < |names|
    ensures AsFlag(names[i]).Some? <==> KnownAt(names, i)
    ensures AsFlag(names[i]).Some? ==> NameAt(names, i, AsFlag(names[i]).value)
  {
    FlagWords(names[i], PrdStarted);
    FlagWords(names[i], PrdReady);
    FlagWords(names[i], SprintConfirmed);
    FlagWords(names[i], ImplementationConfirmed);
    hide Trim, WordOf;
  }

  lemma NewNameIsFirst(names: seq<string>, n: nat, f: Flag)
    requires n < |names| && NameAt(names, n, f)
    ensures FirstNamed(names, n, f) <==> !FirstBelow(names, n, f)
    ensures forall g :: FirstNamed(names, n, g) ==> g == f
  {
    hide NameAt;
    if j: nat :| j < n && NameAt(names, j, f) {
      var k := FirstOf(names, j, f);
      assert k < n && FirstNamed(names, k, f);
    }
    forall g | FirstNamed(names, n, g)
      ensures g == f
    {
      WordsDiffer(names, n, f, g);
    }
  }

  lemma OneMoreBelow(names: seq<string>, n: nat, f: Flag)
    ensures FirstBelow(names, n + 1, f) <==> FirstBelow(names, n, f) || FirstNamed(names, n, f)
  {
    hide FirstNamed;
  }

  lemma OneMoreUpdate(p: FlagParams, names: seq<string>, n: nat, updates: seq<Update>, f: Flag)
    requires n < |names| && NameAt(names, n, f) && Holds(p, names, n, updates)
    ensures if Mentioned(updates, f) then Holds(p, names, n + 1, updates) && !FirstNamed(names, n, f)
            else FirstNamed(names, n, f) && Holds(p, names, n + 1, updates + [Update(f, GivenValue(p, n))])
  {
    hide Mentioned, GivenValue, FirstNamed, FirstBelow, ValuesHeld, NameAt;
    NewNameIsFirst(names, n, f);
    forall g
      ensures FirstBelow(names, n + 1, g) <==> FirstBelow(names, n, g) || FirstNamed(names, n, g)
    {
      OneMoreBelow(names, n, g);
    }
    OneMoreMention(updates, Update(f, GivenValue(p, n)));
    OneMoreHeld(p, names, n, updates, f);
  }

  lemma OneMoreHeld(p: FlagParams, names: seq<string>, n: nat, updates: seq<Update>, f: Flag)
    requires ValuesHeld(p, names, n, updates) && forall g :: FirstNamed(names, n, g) ==> g == f
    ensures ValuesHeld(p, names, n + 1, updates + [Update(f, GivenValue(p, n))])
    ensures !FirstNamed(names, n, f) ==> ValuesHeld(p, names, n + 1, updates)
  {
    hide FirstNamed, GivenValue;
    var u := Update(f, GivenValue(p, n));
    assert (updates + [u])[|updates|] == u && forall v :: v in updates ==> v in updates + [u];
  }

  lemma OneMoreMention(updates: seq<Update>, u: Update)
    ensures forall f :: Mentioned(updates + [u], f) <==> Mentioned(updates, f) || f == u.flag
  {
    forall f
      ensures Mentioned(updates + [u], f) <==> Mentioned(updates, f) || f == u.flag
    {
      assert (updates + [u])[|updates|] == u;
      if Mentioned(updates, f) {
        var i :| 0 <= i < |updates| && updates[i].flag == f;
        assert (updates + [u])[i].flag == f;
      }
    }
  }

  lemma {:induction false} CollectSays(p: FlagParams, n: nat)
    requires n <= |Names(p)|
    ensures Collect(p, n).Ok? <==> AllPermitted(p, Names(p), n)
    ensures Collect(p, n).Ok? ==> Holds(p, Names(p), n, Collect(p, n).value)
  {
    hide AllPermitted, Holds, AsFlag, ValueFor, StageOf, Mentioned, Blank, Trim, Approval.ExplicitStage, Names, GivenValue, Permitted, KnownAt, NameAt;
    var names := Names(p);
    if n == 0 {
      NothingHolds(p, names);
    } else {
      CollectSays(p, n - 1);
      KnownIsFlag(names, n - 1);
      OneMorePermitted(p, names, n - 1);
      if Collect(p, n - 1).Ok? && KnownAt(names, n - 1) {
        var updates, f := Collect(p, n - 1).value, AsFlag(names[n - 1]).value;
        OneMoreUpdate(p, names, n - 1, updates, f);
        if !Mentioned(updates, f) {
          ValueIsGiven(p, f, n - 1);
          StageIsPermitted(p.text, f, GivenValue(p, n - 1));
        }
        OnePermitted(p, names, n - 1, f);
      }
    }
  }

  lemma NothingHolds(p: FlagParams, names: seq<string>)
    ensures AllPermitted(p, names, 0) && Holds(p, names, 0, [])
  {
  }

  lemma OneMorePermitted(p: FlagParams, names: seq<string>, n: nat)
    requires n < |names|
    ensures AllPermitted(p, names, n + 1)
            <==> AllPermitted(p, names, n) && KnownAt(names, n) && forall f :: FirstNamed(names, n, f) ==> Permitted(p.text, f, GivenValue(p, n))
  {
    hide KnownAt, FirstNamed, Permitted, GivenValue;
  }

  lemma OnePermitted(p: FlagParams, names: seq<string>, n: nat, f: Flag)
    requires n < |names| && NameAt(names, n, f)
    ensures (forall g :: FirstNamed(names, n, g) ==> Permitted(p.text, g, GivenValue(p, n)))
            <==> FirstNamed(names, n, f) ==> Permitted(p.text, f, GivenValue(p, n))
  {
    hide NameAt, Permitted, GivenValue;
    forall g | NameAt(names, n, g)
      ensures g == f
    {
      WordsDiffer(names, n, f, g);
    }
  }

  /**
   * A call that sets flags, in its own words: it is taken exactly when every name is one of the four words and each confirmation it sets is
   * permitted by its text; it then writes each named flag once, with the value given at its first mention.
   */
  lemma FlagCallSays(p: FlagParams)
    ensures var names := Names(p);
            && AreGiven(p, names)
            && (Collect(p, |names|).Ok?
                <==> (forall i :: 0 <= i < |names| ==> KnownAt(names, i))
                     && (forall i: nat, f :: FirstNamed(names, i, f) ==> Permitted(p.text, f, GivenValue(p, i))))
            && (Collect(p, |names|).Ok? ==>
                  forall f, v :: Update(f, v) in Collect(p, |names|).value <==> exists i: nat :: FirstNamed(names, i, f) && v == GivenValue(p, i))
  {
    var names := Names(p);
    NamesAreGiven(p);
    CollectSays(p, |names|);
    hide Collect, Names, AreGiven, Permitted, GivenValue, NameAt, KnownAt, Mentioned;
    if Collect(p, |names|).Ok? {
      var updates := Collect(p, |names|).value;
      forall f, v
        ensures Update(f, v) in updates <==> exists i: nat :: FirstNamed(names, i, f) && v == GivenValue(p, i)
      {
        if Update(f, v) in updates {
          UpdatesAreMentioned(updates, Update(f, v));
          var i: nat :| i < |names| && FirstNamed(names, i, f);
          OneValue(p, updates, f, v, GivenValue(p, i));
        }
      }
    }
  }

  lemma UpdatesAreMentioned(updates: seq<Update>, u: Update)
    requires u in updates
    ensures Mentioned(updates, u.flag)
  {
  }

  /** Each flag is written once. */
  lemma OneValue(p: FlagParams, updates: seq<Update>, f: Flag, v: bool, w: bool)
    requires Collect(p, |Names(p)|) == Ok(updates) && Update(f, v) in updates && Update(f, w) in updates
    ensures v == w
  {
    AcceptedWritesAreBacked(p, |Names(p)|);
    hide Collect, Names, Trim, Backed;
    var i :| 0 <= i < |updates| && updates[i] == Update(f, v);
    var j :| 0 <= j < |updates| && updates[j] == Update(f, w);
    assert i == j;
  }

  // ---------- What a write leaves ----------

  /** The last update of the flag in a write. */
  ghost predicate LastUpdate(updates: seq<Update>, f: Flag, i: int) {
    0 <= i < |updates| && updates[i].flag == f && forall j :: i < j < |updates| ==> updates[j].flag != f
  }

  lemma {:induction false} FlagsFollowLast(flags: set<Flag>, updates: seq<Update>, f: Flag)
    ensures f in FlagsAfter(flags, updates)
            <==> if exists i :: LastUpdate(updates, f, i) then exists i :: LastUpdate(updates, f, i) && updates[i].value else f in flags
  {
    if updates != [] {
      var n := |updates| - 1;
      FlagsFollowLast(flags, updates[..n], f);
      if updates[n].flag == f {
        assert LastUpdate(updates, f, n);
      } else {
        if i :| LastUpdate(updates[..n], f, i) {
          assert LastUpdate(updates, f, i);
        }
        if i :| LastUpdate(updates, f, i) {
          assert LastUpdate(updates[..n], f, i);
        }
      }
    }
  }

  /**
   * The record after each operation, flag by flag. A write gives each flag its last value, keeps the others and drops a pending invalidation. An
   * invalidation of the PRD or scope clears all flags but the first, one of the architecture or evidence only the implementation's. A scope change clears
   * like the former when work that was tiny, or expanded from tiny, comes to need planning, and otherwise keeps flags and invalidation.
   */
  lemma RecordAfter(r: Record, updates: seq<Update>, scope: Scope, f: Flag)
    ensures var next := Step(r, SetFlags(updates));
            && next.scope == r.scope && next.invalidatedBy == None
            && (f in next.flags
                <==> if exists i :: LastUpdate(updates, f, i) then exists i :: LastUpdate(updates, f, i) && updates[i].value else f in r.flags)
    ensures var next := Step(r, Invalidate(PrdOrScope));
            next.scope == r.scope && next.invalidatedBy == Some(PrdOrScope) && (f in next.flags <==> f in r.flags && f == PrdStarted)
    ensures var next := Step(r, Invalidate(ArchitectureOrEvidence));
            next.scope == r.scope && next.invalidatedBy == Some(ArchitectureOrEvidence) && (f in next.flags <==> f in r.flags && f != ImplementationConfirmed)
    ensures var next := Step(r, SetScope(scope));
            && next.scope == scope
            && (if r.scope != NonTrivial && scope != TinyDebug
                then next.invalidatedBy == Some(PrdOrScope) && (f in next.flags <==> f in r.flags && f == PrdStarted)
                else next.invalidatedBy == r.invalidatedBy && next.flags == r.flags)
  {
    FlagsFollowLast(r.flags, updates, f);
    hide FlagsAfter, RowsFor, LastUpdate;
    match f
    case PrdStarted =>
    case PrdReady =>
    case SprintConfirmed =>
    case ImplementationConfirmed =>
  }

  // ---------- What a gate says ----------

  /** The codes of a gate that asks for flags: one for each flag that is missing, and its own for a pending invalidation. */
  predicate FlagCodes(r: Record, codes: seq<Code>, implementation: bool) {
    && (PrdNotStarted in codes <==> PrdStarted !in r.flags)
    && (PrdNotReady in codes <==> PrdReady !in r.flags)
    && (SprintNotConfirmed in codes <==> SprintConfirmed !in r.flags)
    && (ImplementationNotConfirmed in codes <==> implementation && ImplementationConfirmed !in r.flags)
    && (PrdInvalidated in codes <==> !implementation && r.invalidatedBy != None)
    && (ArchitectureInvalidated in codes <==> implementation && r.invalidatedBy != None)
    && StateMissing !in codes && ScopeNotNonTrivial !in codes && TinyBypass !in codes && TinyBypassDisallowed !in codes && RoomIdInvalid !in codes
  }

  lemma {:induction false} CodesAreFlags(r: Record, wanted: seq<Flag>, c: Code)
    ensures c in CodesOf(MissingOf(r, wanted))
            <==> (c == PrdNotStarted && PrdStarted in wanted && PrdStarted !in r.flags) || (c == PrdNotReady && PrdReady in wanted && PrdReady !in r.flags)
                 || (c == SprintNotConfirmed && SprintConfirmed in wanted && SprintConfirmed !in r.flags)
                 || (c == ImplementationNotConfirmed && ImplementationConfirmed in wanted && ImplementationConfirmed !in r.flags)
  {
    MissingSpec(r, wanted);
    var missing := MissingOf(r, wanted);
    hide MissingOf;
    CodeIsThere(missing, PrdStarted);
    CodeIsThere(missing, PrdReady);
    CodeIsThere(missing, SprintConfirmed);
    CodeIsThere(missing, ImplementationConfirmed);
    if c in CodesOf(missing) {
      var i :| 0 <= i < |CodesOf(missing)| && CodesOf(missing)[i] == c;
      assert missing[i] in missing && c == MissingCode(missing[i]);
    }
    hide CodesOf;
  }

  /** The sprint gate on a record that is not tiny, code by code. */
  lemma SprintGateSaysCodes(r: Record, bypass: bool)
    requires r.scope != TinyDebug
    ensures FlagCodes(r, SprintGate(Some(r), bypass).codes, false)
  {
    forall c
      ensures c in CodesOf(MissingOf(r, [PrdStarted, PrdReady, SprintConfirmed]))
              <==> (c == PrdNotStarted && PrdStarted !in r.flags) || (c == PrdNotReady && PrdReady !in r.flags)
                   || (c == SprintNotConfirmed && SprintConfirmed !in r.flags)
    {
      CodesAreFlags(r, [PrdStarted, PrdReady, SprintConfirmed], c);
    }
    hide CodesOf, MissingOf;
  }

  /** The implementation gate, which asks for all four flags. */
  lemma ImplementationGateSaysCodes(r: Record, bypass: bool)
    requires r.scope != TinyDebug
    ensures FlagCodes(r, ImplementationGate(Some(r), bypass).codes, true)
  {
    AllFlags(PrdStarted);
    AllFlags(PrdReady);
    AllFlags(SprintConfirmed);
    AllFlags(ImplementationConfirmed);
    hide ALL_FLAGS, CodesOf, MissingOf;
    forall c
      ensures c in CodesOf(MissingOf(r, ALL_FLAGS))
              <==> (c == PrdNotStarted && PrdStarted !in r.flags) || (c == PrdNotReady && PrdReady !in r.flags)
                   || (c == SprintNotConfirmed && SprintConfirmed !in r.flags)
                   || (c == ImplementationNotConfirmed && ImplementationConfirmed !in r.flags)
    {
      CodesAreFlags(r, ALL_FLAGS, c);
    }
  }

  /** On tiny work, or without a record, a gate gives one code: it is open exactly for tiny work that asks for the bypass with no invalidation pending. */
  lemma TinyGatesSay(r: Record, bypass: bool)
    requires r.scope == TinyDebug
    ensures SprintGate(None, bypass).codes == [StateMissing] && ImplementationGate(None, bypass).codes == [StateMissing]
    ensures !SprintGate(None, bypass).allowed && !ImplementationGate(None, bypass).allowed
    ensures SprintGate(Some(r), bypass).codes
            == [if !bypass then ScopeNotNonTrivial else if r.invalidatedBy != None then PrdInvalidated else TinyBypass]
    ensures ImplementationGate(Some(r), bypass).codes
            == [if !bypass then TinyBypassDisallowed else if r.invalidatedBy != None then ArchitectureInvalidated else TinyBypass]
    ensures SprintGate(Some(r), bypass).allowed <==> bypass && r.invalidatedBy == None
    ensures ImplementationGate(Some(r), bypass).allowed <==> bypass && r.invalidatedBy == None
  {
  }

  // ---------- Which room ----------

  /** A room id: letters, digits and hyphens, after trimming. */
  predicate IsRoomId(id: string) {
    id != "" && forall i :: 0 <= i < |id| ==> 'a' <= id[i] <= 'z' || '0' <= id[i] <= '9' || id[i] == '-'
  }

  predicate NamesRoom(text: string, rooms: map<string, File>, room: string) {
    room == Trim(text) && IsRoomId(room) && room in rooms
  }

  lemma RoomIdsAreValid(text: string)
    ensures ValidRoom(text) == if IsRoomId(Trim(text)) then Some(Trim(text)) else None
  {
    hide Trim;
  }

  /**
   * The room a call works on: the one it asks for, if that is an id; else the planning pointer's, if that names an existing room; else, unless the planning
   * pointer is unusable, the workflow pointer's, if that names an existing one; else none.
   */
  lemma ToolRoomFollowsPointers(rooms: map<string, File>, planning: Pointer, workflow: Pointer, asked: string, room: string)
    ensures ToolRoom(rooms, planning, workflow, asked) == Some(room)
            <==> if !Blank(asked) then room == Trim(asked) && IsRoomId(room)
                 else
                   || (planning.PointsTo? && NamesRoom(planning.room, rooms, room))
                   || (&& (planning == NoPointer || (planning.PointsTo? && IsRoomId(Trim(planning.room)) && Trim(planning.room) !in rooms))
                       && workflow.PointsTo? && NamesRoom(workflow.room, rooms, room))
  {
    RoomIdsAreValid(asked);
    if planning.PointsTo? {
      RoomIdsAreValid(planning.room);
    }
    if workflow.PointsTo? {
      RoomIdsAreValid(workflow.room);
    }
    hide ValidRoom, IsRoomId, Trim;
  }

  /** The room a new record is made for: the one asked for, else the workflow pointer's, else the planning pointer's. */
  lemma CreateRoomFollowsPointers(planning: Pointer, workflow: Pointer, asked: string, room: string)
    ensures CreateRoom(planning, workflow, asked) == Some(room)
            <==> IsRoomId(room)
                 && if !Blank(asked) then room == Trim(asked)
                    else if workflow.PointsTo? then room == Trim(workflow.room)
                    else planning.PointsTo? && room == Trim(planning.room)
  {
    RoomIdsAreValid(asked);
    if workflow.PointsTo? {
      RoomIdsAreValid(workflow.room);
    }
    if planning.PointsTo? {
      RoomIdsAreValid(planning.room);
    }
    hide ValidRoom, IsRoomId, Trim;
  }
}
