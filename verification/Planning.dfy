/** The planning record of a room: its four flags, scope, invalidation and audit rows, and the gates read from it. */
module Planning {
  import opened Js

  datatype Flag = PrdStarted | PrdReady | SprintConfirmed | ImplementationConfirmed

  datatype Scope = TinyDebug | NonTrivial | ExpandedFromTiny

  datatype Kind = PrdOrScope | ArchitectureOrEvidence

  /** A row of the record's transition log. */
  datatype Row = Row(flag: Flag, value: bool)

  datatype Record = Record(scope: Scope, flags: set<Flag>, rows: seq<Row>, invalidatedBy: Option<Kind>)

  datatype Update = Update(flag: Flag, value: bool)

  datatype Op = SetFlags(updates: seq<Update>) | Invalidate(kind: Kind) | SetScope(scope: Scope)

  datatype Code =
    | StateMissing | ScopeNotNonTrivial | PrdNotStarted | PrdNotReady | SprintNotConfirmed | ImplementationNotConfirmed
    | TinyBypass | TinyBypassDisallowed | PrdInvalidated | ArchitectureInvalidated | RoomIdInvalid

  datatype Gate = Gate(allowed: bool, codes: seq<Code>, missing: seq<Flag>)

  const ALL_FLAGS := [PrdStarted, PrdReady, SprintConfirmed, ImplementationConfirmed]

  // ---------- Operations ----------

  function New(scope: Scope, flags: set<Flag>): Record {
    Record(scope, flags, [], None)
  }

  function Put(flags: set<Flag>, flag: Flag, value: bool): set<Flag> {
    if value then flags + {flag} else flags - {flag}
  }

  function FlagsAfter(flags: set<Flag>, updates: seq<Update>): set<Flag> {
    if updates == [] then flags
    else
      var u := updates[|updates| - 1];
      Put(FlagsAfter(flags, updates[..|updates| - 1]), u.flag, u.value)
  }

  /** One row for each update that changes something. */
  function RowsFor(flags: set<Flag>, updates: seq<Update>): seq<Row> {
    if updates == [] then []
    else
      var front, u := updates[..|updates| - 1], updates[|updates| - 1];
      RowsFor(flags, front) + if (u.flag in FlagsAfter(flags, front)) != u.value then [Row(u.flag, u.value)] else []
  }

  function Cleared(kind: Kind): seq<Flag> {
    if kind.PrdOrScope? then [PrdReady, SprintConfirmed, ImplementationConfirmed] else [ImplementationConfirmed]
  }

  function ClearedSet(kind: Kind): set<Flag> {
    set f | f in Cleared(kind)
  }

  function ClearRows(kind: Kind): seq<Row> {
    seq(|Cleared(kind)|, i requires 0 <= i < |Cleared(kind)| => Row(Cleared(kind)[i], false))
  }

  /** A scope change that asks for the planning to be confirmed again. */
  predicate Promotion(current: Scope, next: Scope) {
    !current.NonTrivial? && !next.TinyDebug?
  }

  function Step(r: Record, op: Op): Record {
    match op
    case SetFlags(updates) =>
      Record(r.scope, FlagsAfter(r.flags, updates), r.rows + RowsFor(r.flags, updates), None)
    case Invalidate(kind) =>
      Record(r.scope, r.flags - ClearedSet(kind), r.rows + ClearRows(kind), Some(kind))
    case SetScope(scope) =>
      var noted := r.rows + [Row(PrdStarted, PrdStarted in r.flags)];
      if Promotion(r.scope, scope)
      then Record(scope, r.flags - ClearedSet(PrdOrScope), noted + ClearRows(PrdOrScope), Some(PrdOrScope))
      else Record(scope, r.flags, noted, r.invalidatedBy)
  }

  function Run(r: Record, ops: seq<Op>): Record {
    if ops == [] then r else Step(Run(r, ops[..|ops| - 1]), ops[|ops| - 1])
  }

  // ---------- Gates ----------

  function MissingOf(r: Record, wanted: seq<Flag>): seq<Flag> {
    if wanted == [] then []
    else
      var f := wanted[|wanted| - 1];
      MissingOf(r, wanted[..|wanted| - 1]) + if f in r.flags then [] else [f]
  }

  function MissingCode(f: Flag): Code {
    match f
    case PrdStarted => PrdNotStarted
    case PrdReady => PrdNotReady
    case SprintConfirmed => SprintNotConfirmed
    case ImplementationConfirmed => ImplementationNotConfirmed
  }

  function CodesOf(missing: seq<Flag>): seq<Code> {
    seq(|missing|, i requires 0 <= i < |missing| => MissingCode(missing[i]))
  }

  function FlagGate(r: Record, wanted: seq<Flag>, invalidated: Code): Gate {
    var missing := MissingOf(r, wanted);
    Gate(missing == [] && r.invalidatedBy.None?,
         CodesOf(missing) + if r.invalidatedBy.Some? then [invalidated] else [], missing)
  }

  function SprintGate(state: Option<Record>, bypass: bool): Gate {
    if state.None? then Gate(false, [StateMissing], ALL_FLAGS)
    else
      var r := state.value;
      if r.scope.TinyDebug? then
        if !bypass then Gate(false, [ScopeNotNonTrivial], [])
        else if r.invalidatedBy.Some? then Gate(false, [PrdInvalidated], [])
        else Gate(true, [TinyBypass], [])
      else FlagGate(r, [PrdStarted, PrdReady, SprintConfirmed], PrdInvalidated)
  }

  function ImplementationGate(state: Option<Record>, bypass: bool): Gate {
    if state.None? then Gate(false, [StateMissing], ALL_FLAGS)
    else
      var r := state.value;
      if r.scope.TinyDebug? then
        if !bypass then Gate(false, [TinyBypassDisallowed], [])
        else if r.invalidatedBy.Some? then Gate(false, [ArchitectureInvalidated], [])
        else Gate(true, [TinyBypass], [])
      else FlagGate(r, ALL_FLAGS, ArchitectureInvalidated)
  }

  lemma {:induction false} MissingSpec(r: Record, wanted: seq<Flag>)
    ensures forall f :: f in MissingOf(r, wanted) <==> f in wanted && f !in r.flags
    ensures MissingOf(r, wanted) == [] <==> forall f :: f in wanted ==> f in r.flags
  {
    if wanted != [] {
      var front, f := wanted[..|wanted| - 1], wanted[|wanted| - 1];
      MissingSpec(r, front);
      assert wanted == front + [f];
      if f !in r.flags {
        assert f in wanted;
      }
    }
  }

  /** Both gates, in terms of the record: open without bypass means every flag the gate names and no invalidation. */
  lemma GatesIff(r: Record)
    ensures SprintGate(Some(r), false).allowed
            <==> !r.scope.TinyDebug? && {PrdStarted, PrdReady, SprintConfirmed} <= r.flags && r.invalidatedBy.None?
    ensures ImplementationGate(Some(r), false).allowed
            <==> !r.scope.TinyDebug? && (forall f: Flag :: f in r.flags) && r.invalidatedBy.None?
    ensures ImplementationGate(Some(r), false).allowed ==> SprintGate(Some(r), false).allowed
    ensures SprintGate(Some(r), true).allowed && ImplementationGate(Some(r), true).allowed
            <==> if r.scope.TinyDebug? then r.invalidatedBy.None? else ImplementationGate(Some(r), false).allowed
  {
    MissingSpec(r, [PrdStarted, PrdReady, SprintConfirmed]);
    MissingSpec(r, ALL_FLAGS);
    forall f: Flag
      ensures f in ALL_FLAGS
    {
      AllFlags(f);
    }
    hide MissingOf, CodesOf, ALL_FLAGS;
  }

  /** A closed gate says exactly why: the flags it misses, each with its code, and the pending invalidation. */
  lemma GatesSayWhy(r: Record, wanted: seq<Flag>, invalidated: Code)
    requires invalidated.PrdInvalidated? || invalidated.ArchitectureInvalidated?
    ensures var g := FlagGate(r, wanted, invalidated);
            && (g.allowed <==> g.codes == [])
            && (forall f :: f in g.missing <==> f in wanted && f !in r.flags)
            && (forall f :: MissingCode(f) in g.codes <==> f in g.missing)
            && (invalidated in g.codes <==> r.invalidatedBy.Some?)
  {
    MissingSpec(r, wanted);
    var missing := MissingOf(r, wanted);
    hide MissingOf;
    forall f
      ensures MissingCode(f) in CodesOf(missing) <==> f in missing
    {
      CodeIsThere(missing, f);
    }
    hide CodesOf;
    NoCodeNoMissing(missing);
    InvalidationIsNoFlag(missing, invalidated);
  }

  lemma CodeIsThere(missing: seq<Flag>, f: Flag)
    ensures MissingCode(f) in CodesOf(missing) <==> f in missing
  {
    if f in missing {
      var i :| 0 <= i < |missing| && missing[i] == f;
      assert CodesOf(missing)[i] == MissingCode(f);
    }
  }

  lemma NoCodeNoMissing(missing: seq<Flag>)
    ensures CodesOf(missing) == [] <==> missing == []
  {
  }

  lemma InvalidationIsNoFlag(missing: seq<Flag>, c: Code)
    requires c.PrdInvalidated? || c.ArchitectureInvalidated?
    ensures c !in CodesOf(missing)
  {
  }

  lemma AllFlags(f: Flag)
    ensures f in ALL_FLAGS
  {
    assert f == ALL_FLAGS[match f case PrdStarted => 0 case PrdReady => 1 case SprintConfirmed => 2 case ImplementationConfirmed => 3];
  }

  // ---------- History ----------

  /** The value the last update of `f` in a write gives it. */
  function LastValue(updates: seq<Update>, f: Flag): Option<bool> {
    if updates == [] then None
    else
      var u := updates[|updates| - 1];
      if u.flag == f then Some(u.value) else LastValue(updates[..|updates| - 1], f)
  }

  predicate Sets(op: Op, f: Flag) {
    op.SetFlags? && LastValue(op.updates, f) == Some(true)
  }

  predicate Invalidates(scope: Scope, op: Op) {
    op.Invalidate? || (op.SetScope? && Promotion(scope, op.scope))
  }

  predicate Clears(scope: Scope, op: Op, f: Flag) {
    match op
    case SetFlags(updates) => LastValue(updates, f) == Some(false)
    case Invalidate(kind) => f in Cleared(kind)
    case SetScope(next) => Promotion(scope, next) && f in Cleared(PrdOrScope)
  }

  lemma {:induction false} WriteSpec(flags: set<Flag>, updates: seq<Update>, f: Flag)
    ensures f in FlagsAfter(flags, updates) <==>
            if LastValue(updates, f).Some? then LastValue(updates, f).value else f in flags
  {
    if updates != [] {
      WriteSpec(flags, updates[..|updates| - 1], f);
    }
  }

  lemma StepFlag(r: Record, op: Op, f: Flag)
    ensures f in Step(r, op).flags <==> Sets(op, f) || (f in r.flags && !Clears(r.scope, op, f))
  {
    if op.SetFlags? {
      WriteSpec(r.flags, op.updates, f);
    }
  }

  /** `ops[i]` set the flag and nothing since has cleared it. */
  ghost predicate SetAndKept(r: Record, ops: seq<Op>, f: Flag, i: int) {
    0 <= i < |ops| && Sets(ops[i], f) && forall j :: i < j < |ops| ==> !Clears(Run(r, ops[..j]).scope, ops[j], f)
  }

  ghost predicate Kept(r: Record, ops: seq<Op>, f: Flag) {
    exists i :: SetAndKept(r, ops, f, i)
  }

  lemma SetAndKeptExtends(r: Record, ops: seq<Op>, f: Flag, i: int)
    requires ops != []
    ensures var n := |ops| - 1;
            SetAndKept(r, ops, f, i) <==>
              (i == n && Sets(ops[n], f)) || (SetAndKept(r, ops[..n], f, i) && !Clears(Run(r, ops[..n]).scope, ops[n], f))
  {
    hide Sets, Clears, Run;
    var n := |ops| - 1;
    assert forall j :: 0 <= j <= n ==> ops[..n][..j] == ops[..j];
  }

  lemma KeptExtends(r: Record, ops: seq<Op>, f: Flag)
    requires ops != []
    ensures var n := |ops| - 1;
            Kept(r, ops, f) <==> Sets(ops[n], f) || (Kept(r, ops[..n], f) && !Clears(Run(r, ops[..n]).scope, ops[n], f))
  {
    var n := |ops| - 1;
    forall i
      ensures SetAndKept(r, ops, f, i) <==>
        (i == n && Sets(ops[n], f)) || (SetAndKept(r, ops[..n], f, i) && !Clears(Run(r, ops[..n]).scope, ops[n], f))
    {
      SetAndKeptExtends(r, ops, f, i);
    }
    hide Sets, Clears, Run, SetAndKept;
    if Sets(ops[n], f) {
      assert SetAndKept(r, ops, f, n);
    }
  }

  /** A flag of a record created without it is set exactly when some write set it and nothing since has cleared it. */
  lemma {:induction false} FlagHistory(r: Record, ops: seq<Op>, f: Flag)
    requires f !in r.flags
    ensures f in Run(r, ops).flags <==> Kept(r, ops, f)
  {
    if ops != [] {
      var n := |ops| - 1;
      FlagHistory(r, ops[..n], f);
      StepFlag(Run(r, ops[..n]), ops[n], f);
      KeptExtends(r, ops, f);
      hide Step, Sets, Clears, Kept;
    }
  }

  /** `ops[i]` invalidated the record and no flag has been written since. */
  ghost predicate InvalidatedAt(r: Record, ops: seq<Op>, i: int) {
    0 <= i < |ops| && Invalidates(Run(r, ops[..i]).scope, ops[i]) && forall j :: i < j < |ops| ==> !ops[j].SetFlags?
  }

  lemma InvalidatedAtExtends(r: Record, ops: seq<Op>, i: int)
    requires ops != []
    ensures var n := |ops| - 1;
            InvalidatedAt(r, ops, i) <==>
              (i == n && Invalidates(Run(r, ops[..n]).scope, ops[n])) || (InvalidatedAt(r, ops[..n], i) && !ops[n].SetFlags?)
  {
    hide Invalidates, Run;
    var n := |ops| - 1;
    assert forall j :: 0 <= j <= n ==> ops[..n][..j] == ops[..j];
  }

  lemma StepInvalidation(r: Record, op: Op)
    ensures Step(r, op).invalidatedBy.Some? <==> Invalidates(r.scope, op) || (r.invalidatedBy.Some? && !op.SetFlags?)
  {
  }

  /** An invalidation is pending exactly when one came after the last write of any flag. */
  lemma {:induction false} InvalidationHistory(r: Record, ops: seq<Op>)
    requires r.invalidatedBy.None?
    ensures Run(r, ops).invalidatedBy.Some? <==> exists i :: InvalidatedAt(r, ops, i)
  {
    if ops != [] {
      var n := |ops| - 1;
      InvalidationHistory(r, ops[..n]);
      StepInvalidation(Run(r, ops[..n]), ops[n]);
      forall i
        ensures InvalidatedAt(r, ops, i) <==>
          (i == n && Invalidates(Run(r, ops[..n]).scope, ops[n])) || (InvalidatedAt(r, ops[..n], i) && !ops[n].SetFlags?)
      {
        InvalidatedAtExtends(r, ops, i);
      }
      hide Step, Invalidates, InvalidatedAt;
      if Invalidates(Run(r, ops[..n]).scope, ops[n]) {
        assert InvalidatedAt(r, ops, n);
      }
    }
  }

  /**
   * The implementation gate of a created record is open without bypass exactly when the scope is not tiny
   * and each of the four flags was written after everything that clears it. For
   * `implementation_confirmed` that is every invalidation of either kind and every promotion; the pending-invalidation
   * check adds nothing.
   */
  lemma ImplementationGateHistory(scope: Scope, ops: seq<Op>)
    ensures var r := Run(New(scope, {}), ops);
            ImplementationGate(Some(r), false).allowed
            <==> !r.scope.TinyDebug? && forall f: Flag :: Kept(New(scope, {}), ops, f)
  {
    var r0 := New(scope, {});
    GatesIff(Run(r0, ops));
    forall f: Flag
      ensures f in Run(r0, ops).flags <==> Kept(r0, ops, f)
    {
      FlagHistory(r0, ops, f);
    }
    hide Run, ImplementationGate, SprintGate;
    if Kept(r0, ops, ImplementationConfirmed) {
      var i :| SetAndKept(r0, ops, ImplementationConfirmed, i);
      NothingInvalidatedSince(r0, ops, i);
    }
    hide Kept;
  }

  /**
   * The sprint gate of a created record is open without bypass exactly when the scope is not tiny, its three flags were each written after
   * everything that clears them, and no invalidation came after the last write of any flag. Here the
   * pending-invalidation check matters: an architecture invalidation clears none of the three.
   */
  lemma SprintGateHistory(scope: Scope, ops: seq<Op>)
    ensures var (r0, r) := (New(scope, {}), Run(New(scope, {}), ops));
            SprintGate(Some(r), false).allowed
            <==> !r.scope.TinyDebug? && Kept(r0, ops, PrdStarted) && Kept(r0, ops, PrdReady) && Kept(r0, ops, SprintConfirmed)
                 && !exists i :: InvalidatedAt(r0, ops, i)
  {
    var r0 := New(scope, {});
    GatesIff(Run(r0, ops));
    FlagHistory(r0, ops, PrdStarted);
    FlagHistory(r0, ops, PrdReady);
    FlagHistory(r0, ops, SprintConfirmed);
    InvalidationHistory(r0, ops);
    hide Kept, InvalidatedAt, Run, SprintGate, ImplementationGate;
  }

  /** After a kept confirmation there is no invalidation and no promotion. */
  lemma NothingInvalidatedSince(r: Record, ops: seq<Op>, i: int)
    requires r.invalidatedBy.None? && SetAndKept(r, ops, ImplementationConfirmed, i)
    ensures forall j :: i < j < |ops| ==> !Invalidates(Run(r, ops[..j]).scope, ops[j])
    ensures Run(r, ops).invalidatedBy.None?
  {
    InvalidationHistory(r, ops);
    hide Run;
    forall j | i < j < |ops|
      ensures !Invalidates(Run(r, ops[..j]).scope, ops[j])
    {
      assert !Clears(Run(r, ops[..j]).scope, ops[j], ImplementationConfirmed);
    }
  }

  /** The sprint gate forgets an architecture invalidation when a flag that is set is written again, which changes nothing else. */
  lemma SprintGateForgetsArchitecture(r: Record, f: Flag)
    requires SprintGate(Some(r), false).allowed && f in r.flags
    ensures !SprintGate(Some(Step(r, Invalidate(ArchitectureOrEvidence))), false).allowed
    ensures SprintGate(Some(Step(Step(r, Invalidate(ArchitectureOrEvidence)), SetFlags([Update(f, true)]))), false).allowed
  {
    var s := Step(r, Invalidate(ArchitectureOrEvidence));
    var t := Step(s, SetFlags([Update(f, true)]));
    GatesIff(r);
    GatesIff(s);
    GatesIff(t);
    assert FlagsAfter(s.flags, []) == s.flags;
    assert FlagsAfter(s.flags, [Update(f, true)]) == s.flags + {f};
  }

  /** Classifying a confirmed-for-nothing record as tiny opens the bypass, with no flag set at all. */
  lemma DowngradeOpensBypass(r: Record)
    ensures var t := Step(r, SetScope(TinyDebug)); ImplementationGate(Some(t), true).allowed <==> r.invalidatedBy.None?
  {
  }

  // ---------- The transition log ----------

  function FlagsOf(rows: seq<Row>): set<Flag> {
    if rows == [] then {} else Put(FlagsOf(rows[..|rows| - 1]), rows[|rows| - 1].flag, rows[|rows| - 1].value)
  }

  lemma FlagsOfOneMore(rows: seq<Row>, row: Row)
    ensures FlagsOf(rows + [row]) == Put(FlagsOf(rows), row.flag, row.value)
  {
    assert (rows + [row])[..|rows|] == rows;
  }

  lemma {:induction false} WritesAreLogged(rows: seq<Row>, flags: set<Flag>, updates: seq<Update>)
    requires FlagsOf(rows) == flags
    ensures FlagsOf(rows + RowsFor(flags, updates)) == FlagsAfter(flags, updates)
  {
    if updates == [] {
      assert rows + [] == rows;
    } else {
      var front, u := updates[..|updates| - 1], updates[|updates| - 1];
      WritesAreLogged(rows, flags, front);
      if (u.flag in FlagsAfter(flags, front)) != u.value {
        FlagsOfOneMore(rows + RowsFor(flags, front), Row(u.flag, u.value));
        assert rows + RowsFor(flags, updates) == rows + RowsFor(flags, front) + [Row(u.flag, u.value)];
      } else {
        assert RowsFor(flags, updates) == RowsFor(flags, front);
        assert FlagsAfter(flags, updates) == FlagsAfter(flags, front);
      }
    }
  }

  lemma ClearingIsLogged(rows: seq<Row>, kind: Kind)
    ensures FlagsOf(rows + ClearRows(kind)) == FlagsOf(rows) - ClearedSet(kind)
  {
    if kind.PrdOrScope? {
      var (a, b, c) := (Row(PrdReady, false), Row(SprintConfirmed, false), Row(ImplementationConfirmed, false));
      assert ClearRows(kind) == [a, b, c];
      FlagsOfOneMore(rows, a);
      FlagsOfOneMore(rows + [a], b);
      FlagsOfOneMore(rows + [a] + [b], c);
      assert rows + ClearRows(kind) == rows + [a] + [b] + [c];
    } else {
      assert ClearRows(kind) == [Row(ImplementationConfirmed, false)];
      FlagsOfOneMore(rows, Row(ImplementationConfirmed, false));
    }
  }

  /** In every run the transition log alone gives the flags: replaying its rows reproduces them. */
  lemma {:induction false} LogReproducesFlags(scope: Scope, ops: seq<Op>)
    ensures var r := Run(New(scope, {}), ops); FlagsOf(r.rows) == r.flags
  {
    if ops != [] {
      LogReproducesFlags(scope, ops[..|ops| - 1]);
      StepIsLogged(Run(New(scope, {}), ops[..|ops| - 1]), ops[|ops| - 1]);
      hide Step;
    }
  }

  lemma StepIsLogged(r: Record, op: Op)
    requires FlagsOf(r.rows) == r.flags
    ensures FlagsOf(Step(r, op).rows) == Step(r, op).flags
  {
    match op
    case SetFlags(updates) => WritesAreLogged(r.rows, r.flags, updates);
    case Invalidate(kind) => ClearingIsLogged(r.rows, kind);
    case SetScope(scope) =>
      var row := Row(PrdStarted, PrdStarted in r.flags);
      FlagsOfOneMore(r.rows, row);
      ClearingIsLogged(r.rows + [row], PrdOrScope);
      hide ClearRows, ClearedSet, FlagsOf;
  }
}
