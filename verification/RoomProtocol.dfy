/**
 * Many processes on one room. Taking the lock, reading each file, appending a line, writing the
 * cursors, releasing and returning are separate steps that interleave freely; a process may give up on the
 * lock, fail inside it, or crash anywhere. Every process works from the copies of the files it read.
 */
module RoomProtocol {
  import opened Js
  import opened RoomSpec

  /** Where a process stands in a tool call; `log` and `agents` are the copies it has read. */
  datatype Pc =
    | Idle
    | Waiting(req: Request)
    | Holding(req: Request)
    | Loaded(req: Request, log: seq<Event>)
    | Ready(req: Request, log: seq<Event>, agents: map<string, Agent>)
    | Posted(req: Request, log: seq<Event>)
    | Primed(req: Request, log: seq<Event>, agents: map<string, Agent>)
    | Written(req: Request, out: Outcome)
    | Returning(req: Request, out: Outcome)
    | Dead
    | Lost(req: Request, out: Outcome)

  /** What the processes share: the two files and the lock file. */
  datatype Files = Files(log: seq<Event>, agents: map<string, Agent>, lock: Option<nat>)

  datatype World = World(files: Files, procs: map<nat, Pc>, handed: map<string, set<Event>>, history: seq<Commit>)

  datatype Action = Begin(req: Request) | Acquire | GiveUp | Advance | Fail | Crash

  /** What one step of a process does: the files and its place after it, and the commits it makes. */
  datatype Effect = Effect(files: Files, pc: Pc, commits: seq<Commit>)

  const INITIAL := World(Files([], map[], None), map[], map[], [])

  function PcOf(w: World, p: nat): Pc {
    if p in w.procs then w.procs[p] else Idle
  }

  function Handed(handed: map<string, set<Event>>, agent: string): set<Event> {
    if agent in handed then handed[agent] else {}
  }

  /** The refusals a tool decides before it asks for the lock. */
  function EarlyRefusal(log: seq<Event>, req: Request): Option<Refusal> {
    match req.call
    case Create(_) => None
    case StartJob(jobId) => if Blank(jobId) then Some(MissingJobId) else None
    case Send(_, message) => if Blank(message) then Some(MissingMessage) else None
    case Read(_, _, _) => if log == [] then Some(RoomNotFound) else None
    case FinishJob(jobId, _) =>
      if Blank(jobId) then Some(MissingJobId) else if log == [] then Some(RoomNotFound) else None
  }

  predicate Held(pc: Pc) {
    pc.Holding? || pc.Loaded? || pc.Ready? || pc.Posted? || pc.Primed? || pc.Written?
  }

  /** room_create, room_job_start and room_send append before they look at the cursors. */
  predicate PostsFirst(call: Call) {
    call.Create? || call.StartJob? || call.Send?
  }

  predicate WritesAgents(log: seq<Event>, agents: map<string, Agent>, req: Request) {
    !req.call.Create? && (req.call.Read? ==> req.call.markRead) && RefusalOf(log, agents, req).None?
  }

  /** The last step under the lock: write the cursors if the request does, and fix the outcome. */
  function Settle(f: Files, req: Request, log: seq<Event>, agents: map<string, Agent>): Effect {
    var out := OutcomeOf(log, agents, req);
    var written := if WritesAgents(log, agents, req) then AgentsOf(log, agents, req) else f.agents;
    Effect(Files(f.log, written, f.lock), Written(req, out), [Completed(req, out)])
  }

  function AdvanceStep(f: Files, pc: Pc): Effect {
    match pc
    case Holding(req) => Effect(f, Loaded(req, f.log), [])
    case Loaded(req, log) =>
      if PostsFirst(req.call) then Effect(Files(f.log + AppendOf(log, map[], req), f.agents, f.lock), Posted(req, log), [])
      else Effect(f, Ready(req, log, f.agents), [])
    case Posted(req, log) => Effect(f, Primed(req, log, f.agents), [])
    case Ready(req, log, agents) =>
      if req.call.FinishJob? && RefusalOf(log, agents, req).None?
      then Effect(Files(f.log + AppendOf(log, agents, req), f.agents, f.lock), Primed(req, log, agents), [])
      else Settle(f, req, log, agents)
    case Primed(req, log, agents) => Settle(f, req, log, agents)
    case Written(req, out) => Effect(Files(f.log, f.agents, None), Returning(req, out), [])
    case Returning(req, out) => Effect(f, Idle, [])
    case _ => Effect(f, pc, [])
  }

  /** A line that was appended stays when its call does not finish. */
  function Scar(pc: Pc): seq<Commit> {
    if pc.Posted? || pc.Primed? then [Torn(pc.req)] else []
  }

  /** One step of process `p`; an action that does not apply changes nothing. */
  function EffectOf(f: Files, p: nat, pc: Pc, action: Action): Effect {
    match action
    case Begin(req) =>
      if !pc.Idle? then Effect(f, pc, [])
      else
        var refusal := EarlyRefusal(f.log, req);
        if refusal.Some? then Effect(f, Idle, [Completed(req, Refused(refusal.value))]) else Effect(f, Waiting(req), [])
    case Acquire =>
      if pc.Waiting? && f.lock.None? then Effect(Files(f.log, f.agents, Some(p)), Holding(pc.req), []) else Effect(f, pc, [])
    case GiveUp => Effect(f, if pc.Waiting? && f.lock.Some? then Idle else pc, [])
    case Advance => AdvanceStep(f, pc)
    case Fail =>
      if Held(pc) && !pc.Written? then Effect(Files(f.log, f.agents, None), Idle, Scar(pc)) else Effect(f, pc, [])
    case Crash =>
      if pc.Dead? || pc.Lost? then Effect(f, pc, [])
      else Effect(f, if pc.Written? || pc.Returning? then Lost(pc.req, pc.out) else Dead, Scar(pc))
  }

  /** The caller gets its answer, and with it the events of a read. */
  function HandOver(handed: map<string, set<Event>>, pc: Pc, action: Action): map<string, set<Event>> {
    if action.Advance? && pc.Returning? && pc.out.Returned?
    then handed[pc.req.agent := Handed(handed, pc.req.agent) + set e | e in pc.out.events]
    else handed
  }

  function Step(w: World, p: nat, action: Action): World {
    var pc := PcOf(w, p);
    var e := EffectOf(w.files, p, pc, action);
    World(e.files, w.procs[p := e.pc], HandOver(w.handed, pc, action), w.history + e.commits)
  }

  datatype Turn = Turn(p: nat, action: Action)

  function Run(w: World, turns: seq<Turn>): World {
    if turns == [] then w
    else
      var last := turns[|turns| - 1];
      Step(Run(w, turns[..|turns| - 1]), last.p, last.action)
  }

  // ---------- The invariant ----------

  ghost function Abstract(w: World): Room {
    Replay(w.history).room
  }

  /** What the lock holder's copies say about the files, given the log of the commits so far. */
  predicate Matches(pc: Pc, log: seq<Event>, agents: map<string, Agent>, committed: seq<Event>) {
    match pc
    case Loaded(req, l) => l == log == committed
    case Ready(req, l, a) => l == log == committed && a == agents && !PostsFirst(req.call)
    case Posted(req, l) => l == committed && log == l + AppendOf(l, agents, req)
    case Primed(req, l, a) => l == committed && log == l + AppendOf(l, agents, req) && a == agents
    case _ => log == committed
  }

  predicate Waits(pc: Pc) {
    pc.Waiting? || pc.Holding?
  }

  ghost predicate Exclusive(w: World) {
    forall p: nat :: Held(PcOf(w, p)) ==> w.files.lock == Some(p)
  }

  /** The checks made before the lock still hold when the lock is taken. */
  ghost predicate ChecksHold(w: World) {
    forall p: nat :: Waits(PcOf(w, p)) ==> EarlyRefusal(w.files.log, PcOf(w, p).req).None?
  }

  function HolderPc(w: World): Pc {
    if w.files.lock.Some? then PcOf(w, w.files.lock.value) else Idle
  }

  ghost predicate Agrees(w: World) {
    w.files.agents == Abstract(w).agents && Matches(HolderPc(w), w.files.log, w.files.agents, Abstract(w).log)
  }

  ghost predicate Inv(w: World) {
    Sequential(w.history) && Exclusive(w) && ChecksHold(w) && Agrees(w)
  }

  // ---------- Who holds the lock, and what has been checked ----------

  lemma StepShape(f: Files, p: nat, pc: Pc, action: Action)
    ensures var e := EffectOf(f, p, pc, action);
            && f.log <= e.files.log
            && (e.files.lock == f.lock || (Held(pc) && e.files.lock == None) || (f.lock == None && e.files.lock == Some(p)))
            && (Held(e.pc) ==> e.files.lock == Some(p) || (Held(pc) && e.files.lock == f.lock))
            && (Waits(e.pc) ==> EarlyRefusal(f.log, e.pc.req).None? || (Waits(pc) && e.pc.req == pc.req))
  {
    hide OutcomeOf, AppendOf, AgentsOf, RefusalOf, EarlyRefusal, WritesAgents;
  }

  /** The checks made before the lock depend on the log only through its being empty. */
  lemma EarlyRefusalFades(log: seq<Event>, longer: seq<Event>, req: Request)
    requires |log| <= |longer|
    ensures EarlyRefusal(log, req).None? ==> EarlyRefusal(longer, req).None?
    ensures (log == []) == (longer == []) ==> EarlyRefusal(log, req) == EarlyRefusal(longer, req)
  {
  }

  lemma ExclusiveKept(w: World, p: nat, action: Action)
    requires Exclusive(w)
    ensures Exclusive(Step(w, p, action))
  {
    StepShape(w.files, p, PcOf(w, p), action);
    hide EffectOf, EarlyRefusal, HandOver;
  }

  lemma ChecksHoldKept(w: World, p: nat, action: Action)
    requires ChecksHold(w)
    ensures ChecksHold(Step(w, p, action))
  {
    var v := Step(w, p, action);
    StepShape(w.files, p, PcOf(w, p), action);
    hide EffectOf, EarlyRefusal, HandOver;
    forall q: nat | Waits(PcOf(v, q))
      ensures EarlyRefusal(v.files.log, PcOf(v, q).req).None?
    {
      assert q != p ==> PcOf(v, q) == PcOf(w, q);
      EarlyRefusalFades(w.files.log, v.files.log, PcOf(v, q).req);
    }
  }

  // ---------- The files agree with the commits ----------

  lemma AppendIgnoresAgents(log: seq<Event>, a: map<string, Agent>, b: map<string, Agent>, req: Request)
    requires PostsFirst(req.call)
    ensures AppendOf(log, a, req) == AppendOf(log, b, req)
  {
  }

  lemma OnlyPostersPost(log: seq<Event>, agents: map<string, Agent>, req: Request)
    requires req.call.Read? || RefusalOf(log, agents, req).Some?
    ensures log + AppendOf(log, agents, req) == log
  {
  }

  lemma UnwrittenAgents(log: seq<Event>, agents: map<string, Agent>, req: Request)
    requires !WritesAgents(log, agents, req)
    ensures AgentsOf(log, agents, req) == agents
  {
  }

  lemma EarlyRefusalStands(committed: seq<Event>, log: seq<Event>, agents: map<string, Agent>, req: Request)
    requires EarlyRefusal(log, req).Some? && |committed| <= |log|
    ensures OutcomeOf(committed, agents, req) == Refused(EarlyRefusal(log, req).value)
  {
  }

  lemma CommittedIsPrefix(pc: Pc, log: seq<Event>, agents: map<string, Agent>, committed: seq<Event>)
    requires Matches(pc, log, agents, committed)
    ensures committed <= log
  {
    hide AppendOf;
  }

  lemma HistoryGrows(history: seq<Commit>, c: Commit)
    requires Sequential(history)
    requires var room := Replay(history).room; c.Completed? ==> c.outcome == OutcomeOf(room.log, room.agents, c.req)
    ensures Sequential(history + [c])
    ensures Replay(history + [c]) == Record(Replay(history), c)
  {
    hide OutcomeOf, Record;
    assert (history + [c])[..|history + [c]| - 1] == history;
  }

  /** The files after an effect are those the commits up to it describe, up to the holder's unfinished work. */
  ghost predicate Faithful(e: Effect, holder: Pc, history: seq<Commit>) {
    var room := Replay(history + e.commits).room;
    && Sequential(history + e.commits)
    && e.files.agents == room.agents
    && Matches(holder, e.files.log, e.files.agents, room.log)
  }

  lemma RefusedBeforeLock(f: Files, holder: Pc, history: seq<Commit>, req: Request)
    requires Sequential(history) && EarlyRefusal(f.log, req).Some?
    requires f.agents == Replay(history).room.agents && Matches(holder, f.log, f.agents, Replay(history).room.log)
    ensures Faithful(Effect(f, Idle, [Completed(req, Refused(EarlyRefusal(f.log, req).value))]), holder, history)
  {
    var a := Replay(history);
    CommittedIsPrefix(holder, f.log, f.agents, a.room.log);
    EarlyRefusalStands(a.room.log, f.log, f.agents, req);
    RefusedChangesNothing(a, req);
    HistoryGrows(history, Completed(req, Refused(EarlyRefusal(f.log, req).value)));
    hide OutcomeOf, Record, Matches, EarlyRefusal, Replay, Sequential;
  }

  lemma SettleIsFaithful(f: Files, history: seq<Commit>, req: Request, log: seq<Event>)
    requires Sequential(history) && Replay(history).room == Room(log, f.agents)
    requires f.log == log + AppendOf(log, f.agents, req)
    ensures Faithful(Settle(f, req, log, f.agents), Settle(f, req, log, f.agents).pc, history)
  {
    HistoryGrows(history, Completed(req, OutcomeOf(log, f.agents, req)));
    if !WritesAgents(log, f.agents, req) {
      UnwrittenAgents(log, f.agents, req);
    }
    hide OutcomeOf, AppendOf, AgentsOf, WritesAgents, Replay, Sequential;
  }

  lemma ScarIsFaithful(f: Files, pc: Pc, history: seq<Commit>, lock: Option<nat>, after: Pc)
    requires Sequential(history)
    requires f.agents == Replay(history).room.agents && Matches(pc, f.log, f.agents, Replay(history).room.log)
    requires !Held(after)
    ensures Faithful(Effect(Files(f.log, f.agents, lock), after, Scar(pc)), after, history)
  {
    hide OutcomeOf, AppendOf, AgentsOf, RefusalOf, Replay, Sequential;
    if pc.Posted? || pc.Primed? {
      HistoryGrows(history, Torn(pc.req));
    } else {
      assert history + [] == history;
    }
  }

  lemma LoadedIsFaithful(f: Files, history: seq<Commit>, req: Request)
    requires Sequential(history) && Replay(history).room == Room(f.log, f.agents)
    ensures var e := AdvanceStep(f, Loaded(req, f.log)); Faithful(e, e.pc, history)
  {
    assert history + [] == history;
    if PostsFirst(req.call) {
      AppendIgnoresAgents(f.log, map[], f.agents, req);
    }
    hide OutcomeOf, AppendOf, AgentsOf, RefusalOf, Replay, Sequential, Settle;
  }

  lemma ReadyIsFaithful(f: Files, history: seq<Commit>, req: Request)
    requires Sequential(history) && Replay(history).room == Room(f.log, f.agents) && !PostsFirst(req.call)
    ensures var e := AdvanceStep(f, Ready(req, f.log, f.agents)); Faithful(e, e.pc, history)
  {
    hide OutcomeOf, AppendOf, AgentsOf, RefusalOf, Replay, Sequential, Settle;
    if req.call.FinishJob? && RefusalOf(f.log, f.agents, req).None? {
      assert history + [] == history;
    } else {
      OnlyPostersPost(f.log, f.agents, req);
      SettleIsFaithful(f, history, req, f.log);
    }
  }

  lemma AdvanceIsFaithful(f: Files, pc: Pc, history: seq<Commit>)
    requires Sequential(history)
    requires f.agents == Replay(history).room.agents && Matches(pc, f.log, f.agents, Replay(history).room.log)
    ensures Faithful(AdvanceStep(f, pc), AdvanceStep(f, pc).pc, history)
  {
    match pc
    case Loaded(req, log) => LoadedIsFaithful(f, history, req);
    case Ready(req, log, agents) => ReadyIsFaithful(f, history, req);
    case Primed(req, log, agents) => SettleIsFaithful(f, history, req, log);
    case _ =>
      assert history + [] == history;
      hide OutcomeOf, AppendOf, AgentsOf, RefusalOf, Replay, Sequential;
  }

  lemma EffectIsFaithful(f: Files, p: nat, pc: Pc, action: Action, holder: Pc, history: seq<Commit>)
    requires Sequential(history) && f.agents == Replay(history).room.agents
    requires Matches(holder, f.log, f.agents, Replay(history).room.log)
    requires Held(pc) ==> f.lock == Some(p)
    requires (f.lock == Some(p) ==> holder == pc) && (f.lock.None? ==> holder == Idle)
    ensures var e := EffectOf(f, p, pc, action);
            Faithful(e, if e.files.lock.None? then Idle else if e.files.lock == Some(p) then e.pc else holder, history)
  {
    assert history + [] == history;
    hide OutcomeOf, AppendOf, AgentsOf, RefusalOf, Replay, Sequential;
    match action
    case Begin(req) =>
      if pc.Idle? && EarlyRefusal(f.log, req).Some? {
        RefusedBeforeLock(f, holder, history, req);
      }
    case Advance =>
      if f.lock == Some(p) {
        AdvanceIsFaithful(f, pc, history);
      }
    case Fail =>
      if Held(pc) && !pc.Written? {
        ScarIsFaithful(f, pc, history, None, Idle);
      }
    case Crash =>
      if f.lock == Some(p) {
        ScarIsFaithful(f, pc, history, f.lock, EffectOf(f, p, pc, action).pc);
      }
    case _ =>
  }

  lemma StepKeepsInv(w: World, p: nat, action: Action)
    requires Inv(w)
    ensures Inv(Step(w, p, action))
  {
    hide EffectOf, Matches, Replay, Sequential, HandOver, EarlyRefusal;
    StepShape(w.files, p, PcOf(w, p), action);
    ExclusiveKept(w, p, action);
    ChecksHoldKept(w, p, action);
    EffectIsFaithful(w.files, p, PcOf(w, p), action, HolderPc(w), w.history);
    var v := Step(w, p, action);
    assert forall q: nat :: q != p ==> PcOf(v, q) == PcOf(w, q);
    assert PcOf(v, p) == EffectOf(w.files, p, PcOf(w, p), action).pc;
  }

  lemma {:induction false} RunKeepsInv(turns: seq<Turn>)
    ensures Inv(Run(INITIAL, turns))
  {
    if turns != [] {
      RunKeepsInv(turns[..|turns| - 1]);
      StepKeepsInv(Run(INITIAL, turns[..|turns| - 1]), turns[|turns| - 1].p, turns[|turns| - 1].action);
    }
  }
}
