/** What holds of every interleaving of the processes of a room, crashes and failures included. */
module RoomRuns {
  import opened Js
  import opened RoomSpec
  import opened RoomProtocol

  /** The line an unfinished call has appended is numbered like any other, so the log stays in order. */
  lemma HolderKeepsOrder(pc: Pc, log: seq<Event>, agents: map<string, Agent>, committed: seq<Event>)
    requires Increasing(committed) && Matches(pc, log, agents, committed)
    ensures Increasing(log) && committed <= log
    ensures forall e :: e in log && e !in committed ==> e.seqNo == MaxSeq(committed) + 1
  {
    if pc.Posted? || pc.Primed? {
      var more := AppendOf(pc.log, agents, pc.req);
      AppendedNumber(pc.log, agents, pc.req);
      hide AppendOf, RefusalOf, AgentsOf;
      if more == [] {
        assert log == committed;
      } else {
        assert more == [more[0]];
        AppendKeepsOrder(committed, more[0]);
      }
    }
  }

  /** At every moment of every run one process at most is inside the lock, and the log is in strictly increasing order. */
  lemma RunsKeepOrder(turns: seq<Turn>, p: nat, q: nat)
    ensures var w := Run(INITIAL, turns);
            && Increasing(w.files.log)
            && (Held(PcOf(w, p)) && Held(PcOf(w, q)) ==> p == q)
  {
    var w := Run(INITIAL, turns);
    RunKeepsInv(turns);
    RoomsLoseNothing(w.history);
    HolderKeepsOrder(HolderPc(w), w.files.log, w.files.agents, Abstract(w).log);
  }

  // ---------- Delivery ----------

  /** A read that has moved the cursor but not yet answered carries its events; a crash loses them. */
  predicate Carries(pc: Pc, agent: string, e: Event) {
    (pc.Written? || pc.Returning? || pc.Lost?) && pc.req.agent == agent && pc.out.Returned? && e in pc.out.events
  }

  ghost predicate Accounted(w: World, agent: string, e: Event) {
    e in Handed(w.handed, agent) || exists p: nat :: Carries(PcOf(w, p), agent, e)
  }

  ghost predicate AllAccounted(w: World) {
    forall agent, e :: e in Got(Replay(w.history), agent) ==> Accounted(w, agent, e)
  }

  /** Only a commit that is a read with an outcome hands something over, and the process that makes it carries it. */
  lemma CommitsAreCarried(f: Files, p: nat, pc: Pc, action: Action, history: seq<Commit>, agent: string, e: Event)
    requires var commits := EffectOf(f, p, pc, action).commits;
             e in Got(Replay(history + commits), agent) && e !in Got(Replay(history), agent)
    ensures Carries(EffectOf(f, p, pc, action).pc, agent, e)
  {
    var commits := EffectOf(f, p, pc, action).commits;
    hide OutcomeOf, AppendOf, AgentsOf, RefusalOf, EarlyRefusal, Apply;
    assert |commits| <= 1 && history + [] == history;
    assert commits != [] ==> (history + commits)[..|history + commits| - 1] == history;
  }

  lemma StaysAccounted(w: World, p: nat, action: Action, agent: string, e: Event)
    requires Accounted(w, agent, e)
    ensures Accounted(Step(w, p, action), agent, e)
  {
    var v := Step(w, p, action);
    hide OutcomeOf, AppendOf, AgentsOf, RefusalOf, EarlyRefusal;
    if e !in Handed(w.handed, agent) {
      var q: nat :| Carries(PcOf(w, q), agent, e);
      assert Carries(PcOf(v, q), agent, e) || e in Handed(v.handed, agent);
    }
  }

  lemma StepKeepsAccounts(w: World, p: nat, action: Action)
    requires AllAccounted(w)
    ensures AllAccounted(Step(w, p, action))
  {
    var v := Step(w, p, action);
    forall agent, e | e in Got(Replay(v.history), agent)
      ensures Accounted(v, agent, e)
    {
      if e in Got(Replay(w.history), agent) {
        StaysAccounted(w, p, action, agent, e);
      } else {
        CommitsAreCarried(w.files, p, PcOf(w, p), action, w.history, agent, e);
        hide EffectOf, Replay;
        assert Carries(PcOf(v, p), agent, e);
      }
    }
  }

  lemma {:induction false} RunKeepsAccounts(turns: seq<Turn>)
    ensures AllAccounted(Run(INITIAL, turns))
  {
    if turns != [] {
      RunKeepsAccounts(turns[..|turns| - 1]);
      StepKeepsAccounts(Run(INITIAL, turns[..|turns| - 1]), turns[|turns| - 1].p, turns[|turns| - 1].action);
    }
  }

  /**
   * In every interleaving, an event at or below an agent's cursor was returned to that agent, or is in
   * the answer of a read that has written the cursor and has not answered: one still running, or one
   * whose process crashed in between.
   */
  lemma EveryReadEventIsAccounted(turns: seq<Turn>, agent: string, e: Event)
    requires var f := Run(INITIAL, turns).files; e in f.log && e.seqNo <= LastRead(f.agents, agent)
    ensures Accounted(Run(INITIAL, turns), agent, e)
  {
    var w := Run(INITIAL, turns);
    RunKeepsInv(turns);
    RunKeepsAccounts(turns);
    RoomsLoseNothing(w.history);
    HolderKeepsOrder(HolderPc(w), w.files.log, w.files.agents, Abstract(w).log);
  }

  /** A process that crashes after its read has written the cursor takes the events with it: no run brings them back. */
  lemma {:induction false} CrashedReadIsNeverAnswered(w: World, p: nat, turns: seq<Turn>)
    requires PcOf(w, p).Lost?
    ensures PcOf(Run(w, turns), p) == PcOf(w, p)
  {
    if turns != [] {
      var u, last := Run(w, turns[..|turns| - 1]), turns[|turns| - 1];
      CrashedReadIsNeverAnswered(w, p, turns[..|turns| - 1]);
      LostStaysLost(u.files, p, PcOf(u, p), last.action);
      hide EffectOf, HandOver;
    }
  }

  lemma LostStaysLost(f: Files, p: nat, pc: Pc, action: Action)
    requires pc.Lost?
    ensures EffectOf(f, p, pc, action).pc == pc
  {
  }

  // ---------- Without a crash in a read's last steps ----------

  predicate Answering(pc: Pc) {
    pc.Written? || pc.Returning?
  }

  /** The turn crashes a process between the writing of its cursors and its answer. */
  predicate LosesAnswer(w: World, turn: Turn) {
    turn.action.Crash? && Answering(PcOf(w, turn.p))
  }

  /** A lost answer was lost by such a crash. */
  lemma {:induction false} LostByCrash(turns: seq<Turn>, p: nat)
    requires PcOf(Run(INITIAL, turns), p).Lost?
    ensures exists k :: 0 <= k < |turns| && LosesAnswer(Run(INITIAL, turns[..k]), turns[k])
  {
    var front := turns[..|turns| - 1];
    var u, last := Run(INITIAL, front), turns[|turns| - 1];
    if PcOf(u, p).Lost? {
      LostByCrash(front, p);
      var k :| 0 <= k < |front| && LosesAnswer(Run(INITIAL, front[..k]), front[k]);
      assert front[..k] == turns[..k] && turns[k] == front[k];
    } else {
      OnlyCrashLoses(u.files, last.p, PcOf(u, last.p), last.action);
      assert LosesAnswer(Run(INITIAL, turns[..|turns| - 1]), turns[|turns| - 1]);
    }
  }

  lemma OnlyCrashLoses(f: Files, p: nat, pc: Pc, action: Action)
    ensures EffectOf(f, p, pc, action).pc.Lost? ==> pc.Lost? || (action.Crash? && Answering(pc))
  {
    hide OutcomeOf, AppendOf, AgentsOf, RefusalOf, EarlyRefusal;
  }

  /**
   * While no process crashes between the writing of its cursors and its answer, every event at or below an agent's cursor was
   * returned to that agent or is in the answer of a read that is still running.
   */
  lemma EveryReadEventIsDelivered(turns: seq<Turn>, agent: string, e: Event)
    requires forall k :: 0 <= k < |turns| ==> !LosesAnswer(Run(INITIAL, turns[..k]), turns[k])
    requires var f := Run(INITIAL, turns).files; e in f.log && e.seqNo <= LastRead(f.agents, agent)
    ensures var w := Run(INITIAL, turns);
            e in Handed(w.handed, agent) || exists p: nat :: Answering(PcOf(w, p)) && Carries(PcOf(w, p), agent, e)
  {
    EveryReadEventIsAccounted(turns, agent, e);
    var w := Run(INITIAL, turns);
    if e !in Handed(w.handed, agent) {
      var p: nat :| Carries(PcOf(w, p), agent, e);
      if PcOf(w, p).Lost? {
        LostByCrash(turns, p);
        assert false;
      }
      hide Run;
    }
  }

  // ---------- The lock ----------

  /** Only the lock holder changes the files, so a call that waits, gives up or is refused before the lock leaves them alone. */
  lemma OnlyTheHolderWrites(turns: seq<Turn>, p: nat, action: Action)
    requires Run(INITIAL, turns).files.lock != Some(p)
    ensures var (before, after) := (Run(INITIAL, turns).files, Step(Run(INITIAL, turns), p, action).files);
            after.log == before.log && after.agents == before.agents
  {
    RunKeepsInv(turns);
    hide OutcomeOf, AppendOf, AgentsOf, RefusalOf, EarlyRefusal, HandOver, Agrees, ChecksHold, Replay, Sequential;
  }

  /** After its holder crashes the lock is never free again: whatever the others try, the files stay as they are. */
  lemma {:induction false} CrashedHolderFreezesRoom(w: World, p: nat, turns: seq<Turn>)
    requires Exclusive(w) && w.files.lock == Some(p) && (PcOf(w, p).Dead? || PcOf(w, p).Lost?)
    ensures var v := Run(w, turns);
            v.files == w.files && PcOf(v, p) == PcOf(w, p) && Exclusive(v)
  {
    if turns != [] {
      var u, last := Run(w, turns[..|turns| - 1]), turns[|turns| - 1];
      CrashedHolderFreezesRoom(w, p, turns[..|turns| - 1]);
      ExclusiveKept(u, last.p, last.action);
      OutsidersChangeNothing(u.files, p, last.p, PcOf(u, last.p), last.action);
      hide EffectOf, Exclusive, HandOver, Held;
    }
  }

  lemma OutsidersChangeNothing(f: Files, holder: nat, p: nat, pc: Pc, action: Action)
    requires f.lock == Some(holder) && !Held(pc)
    ensures var e := EffectOf(f, p, pc, action);
            e.files == f && (pc.Dead? || pc.Lost? ==> e.pc == pc)
  {
    hide OutcomeOf, AppendOf, AgentsOf, RefusalOf, EarlyRefusal, Settle;
  }

  /** Whoever holds the lock is inside a call, or has crashed there. */
  ghost predicate HasHolder(w: World) {
    forall p: nat :: w.files.lock == Some(p) ==> Held(PcOf(w, p)) || PcOf(w, p).Dead? || PcOf(w, p).Lost?
  }

  lemma HolderStays(f: Files, p: nat, pc: Pc, action: Action)
    requires f.lock == Some(p) ==> Held(pc) || pc.Dead? || pc.Lost?
    requires Held(pc) ==> f.lock == Some(p)
    ensures var e := EffectOf(f, p, pc, action);
            && (e.files.lock == Some(p) ==> Held(e.pc) || e.pc.Dead? || e.pc.Lost?)
            && (forall q :: q != p && e.files.lock == Some(q) ==> f.lock == Some(q))
  {
    hide OutcomeOf, AppendOf, AgentsOf, RefusalOf, EarlyRefusal;
  }

  lemma {:induction false} RunHasHolder(turns: seq<Turn>)
    ensures HasHolder(Run(INITIAL, turns))
  {
    if turns != [] {
      var front := turns[..|turns| - 1];
      var u, last := Run(INITIAL, front), turns[|turns| - 1];
      RunHasHolder(front);
      RunKeepsInv(front);
      HolderStays(u.files, last.p, PcOf(u, last.p), last.action);
      hide EffectOf, HandOver, Agrees, ChecksHold, Sequential, Held;
    }
  }

  /** How many of its own steps the holder is from releasing the lock. */
  function StepsLeft(pc: Pc): nat {
    match pc
    case Holding(_) => 5
    case Loaded(_, _) => 4
    case Ready(_, _, _) => 3
    case Posted(_, _) => 3
    case Primed(_, _, _) => 2
    case Written(_, _) => 1
    case _ => 0
  }

  lemma HolderAdvances(f: Files, p: nat, pc: Pc)
    requires Held(pc) && f.lock == Some(p)
    ensures var e := EffectOf(f, p, pc, Advance);
            e.files.lock == None || (e.files.lock == Some(p) && Held(e.pc) && StepsLeft(e.pc) < StepsLeft(pc))
  {
    hide OutcomeOf, AppendOf, AgentsOf, RefusalOf;
  }

  lemma {:induction false} RunFrom(w: World, turn: Turn, turns: seq<Turn>)
    ensures Run(w, [turn] + turns) == Run(Step(w, turn.p, turn.action), turns)
  {
    if turns == [] {
      assert ([turn] + turns)[..0] == [];
    } else {
      var front := turns[..|turns| - 1];
      RunFrom(w, turn, front);
      assert ([turn] + turns)[..|turns|] == [turn] + front;
      hide Step;
    }
  }

  /** Left to itself the holder is out within five steps. */
  lemma {:induction false} HolderReleases(w: World, p: nat) returns (turns: seq<Turn>)
    requires w.files.lock == Some(p) && Held(PcOf(w, p))
    ensures |turns| <= StepsLeft(PcOf(w, p)) && Run(w, turns).files.lock == None
    decreases StepsLeft(PcOf(w, p))
  {
    HolderAdvances(w.files, p, PcOf(w, p));
    hide EffectOf, Held, HandOver, StepsLeft;
    var v := Step(w, p, Advance);
    var rest := [];
    if v.files.lock != None {
      rest := HolderReleases(v, p);
    }
    RunFrom(w, Turn(p, Advance), rest);
    turns := [Turn(p, Advance)] + rest;
  }

  ghost predicate CanBeFreed(w: World) {
    exists turns :: Run(w, turns).files.lock == None
  }

  /** Exactly when a taken lock can become free again: unless its holder has crashed inside the call. */
  lemma LockIsFreedIff(turns: seq<Turn>, p: nat)
    requires Run(INITIAL, turns).files.lock == Some(p)
    ensures var w := Run(INITIAL, turns); CanBeFreed(w) <==> !(PcOf(w, p).Dead? || PcOf(w, p).Lost?)
  {
    var w := Run(INITIAL, turns);
    RunHasHolder(turns);
    RunKeepsInv(turns);
    hide Held;
    if PcOf(w, p).Dead? || PcOf(w, p).Lost? {
      forall more
        ensures Run(w, more).files.lock == Some(p)
      {
        CrashedHolderFreezesRoom(w, p, more);
      }
    } else {
      var more := HolderReleases(w, p);
    }
  }

  // ---------- What a caller may rely on ----------

  /** A line that was acknowledged is in the file at every later moment, under the number its caller was told. */
  lemma NoAcknowledgedAppendIsLost(turns: seq<Turn>, i: nat)
    requires var history := Run(INITIAL, turns).history;
             i < |history| && history[i].Completed? && history[i].outcome.Appended?
    ensures var w := Run(INITIAL, turns);
            exists e :: e in w.files.log && e.seqNo == w.history[i].outcome.seqNo && e.from == w.history[i].req.agent
  {
    var w := Run(INITIAL, turns);
    RunKeepsInv(turns);
    AcknowledgedAppendsStay(w.history, i);
    CommittedIsPrefix(HolderPc(w), w.files.log, w.files.agents, Abstract(w).log);
    hide Replay, Sequential, Matches, Run;
  }

  /** Two acknowledged lines never share a number. */
  lemma AcknowledgedNumbersDiffer(turns: seq<Turn>, i: nat, j: nat)
    requires var history := Run(INITIAL, turns).history;
             i < j < |history| && history[i].Completed? && history[i].outcome.Appended? && history[j].Completed? && history[j].outcome.Appended?
    ensures var history := Run(INITIAL, turns).history;
            history[i].outcome.seqNo < history[j].outcome.seqNo
  {
    var history := Run(INITIAL, turns).history;
    RunKeepsInv(turns);
    hide Run;
    CursorsNeverMoveBack(history, j + 1, "");
    CursorsNeverMoveBack(history, j, "");
    AcknowledgedAppendsStay(history[..j], i);
    var log := Replay(history[..j]).room.log;
    MaxSeqBounds(log);
    OutcomeAt(history, j);
    AppendedIsNext(log, Replay(history[..j]).room.agents, history[j].req);
    hide Replay, Sequential, OutcomeOf, MaxSeq;
  }

  lemma OutcomeAt(history: seq<Commit>, i: nat)
    requires Sequential(history) && i < |history| && history[i].Completed?
    ensures var room := Replay(history[..i]).room; history[i].outcome == OutcomeOf(room.log, room.agents, history[i].req)
  {
    hide OutcomeOf, Replay;
    CursorsNeverMoveBack(history, i + 1, "");
    assert history[..i + 1][..i] == history[..i];
  }

  lemma AppendedIsNext(log: seq<Event>, agents: map<string, Agent>, req: Request)
    requires OutcomeOf(log, agents, req).Appended?
    ensures OutcomeOf(log, agents, req).seqNo == MaxSeq(log) + 1
  {
  }

  /**
   * A job that ended without the override had been handed, when it ended, every message for it that was in the log
   * by then; each such message was returned to the agent or is accounted for as above.
   */
  lemma FinishedJobsWereInformed(turns: seq<Turn>, i: nat, e: Event)
    requires var history := Run(INITIAL, turns).history;
             && i < |history| && history[i].Completed? && history[i].outcome.Appended?
             && history[i].req.call.FinishJob? && !history[i].req.call.allowUnread
             && e in Replay(history[..i]).room.log && Relevant(e, history[i].req.agent)
    ensures Accounted(Run(INITIAL, turns), Run(INITIAL, turns).history[i].req.agent, e)
  {
    var w := Run(INITIAL, turns);
    RunKeepsInv(turns);
    RunKeepsAccounts(turns);
    hide Run;
    CursorsNeverMoveBack(w.history, i, w.history[i].req.agent);
    OutcomeAt(w.history, i);
    FinishIsInformed(w.history[..i], w.history[i].req);
    hide Replay, Sequential, OutcomeOf, Accounted, Relevant;
  }

  // ---------- One process alone ----------

  function Advances(w: World, p: nat, n: nat): World
    decreases n
  {
    if n == 0 then w else Advances(Step(w, p, Advance), p, n - 1)
  }

  /** The step a process inside the lock is at, when no other process has moved since it took it. */
  lemma AdvanceFrom(w: World, p: nat, pc: Pc)
    requires PcOf(w, p) == pc
    ensures var e := AdvanceStep(w.files, pc);
            Step(w, p, Advance) == World(e.files, w.procs[p := e.pc], HandOver(w.handed, pc, Advance), w.history + e.commits)
  {
    hide OutcomeOf, AppendOf, AgentsOf, RefusalOf, WritesAgents;
  }

  /** From the cursors being written to the answer: release, then return. */
  lemma AnswersAfterSettling(w: World, p: nat, req: Request, out: Outcome, n: nat)
    requires PcOf(w, p) == Written(req, out) && 2 <= n
    ensures var v := Advances(w, p, n);
            && v.files == Files(w.files.log, w.files.agents, None) && PcOf(v, p) == Idle && v.history == w.history
            && v.handed == HandOver(w.handed, Returning(req, out), Advance)
  {
    var v1 := Step(w, p, Advance);
    AdvanceFrom(w, p, Written(req, out));
    AdvanceFrom(v1, p, Returning(req, out));
    var v2 := Step(v1, p, Advance);
    IdleStays(v2, p, n - 2);
    assert w.history + [] + [] == w.history;
  }

  lemma {:induction false} IdleStays(w: World, p: nat, n: nat)
    requires PcOf(w, p).Idle?
    ensures var v := Advances(w, p, n);
            v.files == w.files && PcOf(v, p).Idle? && v.history == w.history && v.handed == w.handed
    decreases n
  {
    if n > 0 {
      AdvanceFrom(w, p, Idle);
      IdleStays(Step(w, p, Advance), p, n - 1);
      assert w.history + [] == w.history;
    }
  }

  lemma SettlesAlone(w: World, p: nat, req: Request, log: seq<Event>, n: nat)
    requires var pc := PcOf(w, p);
             || pc == Primed(req, log, w.files.agents)
             || (pc == Ready(req, log, w.files.agents) && (req.call.Read? || RefusalOf(log, w.files.agents, req).Some?))
    requires w.files.log == log + AppendOf(log, w.files.agents, req) && 3 <= n
    ensures var v := Advances(w, p, n);
            var room := Room(log, w.files.agents);
            && v.files == Files(Apply(room, req).log, Apply(room, req).agents, None) && PcOf(v, p) == Idle
            && v.history == w.history + [Completed(req, OutcomeOf(log, w.files.agents, req))]
            && v.handed == HandOver(w.handed, Returning(req, OutcomeOf(log, w.files.agents, req)), Advance)
  {
    AdvanceFrom(w, p, PcOf(w, p));
    var v1 := Step(w, p, Advance);
    if !WritesAgents(log, w.files.agents, req) {
      UnwrittenAgents(log, w.files.agents, req);
    }
    hide OutcomeOf, AppendOf, AgentsOf, RefusalOf, WritesAgents;
    AnswersAfterSettling(v1, p, req, OutcomeOf(log, w.files.agents, req), n - 1);
  }

  /** Taking the free lock and reading what the request reads first. */
  lemma EntersAlone(w: World, p: nat, req: Request)
    requires PcOf(w, p).Idle? && w.files.lock.None? && EarlyRefusal(w.files.log, req).None?
    ensures var (log, agents) := (w.files.log, w.files.agents);
            var v0 := Step(Step(w, p, Begin(req)), p, Acquire);
            var v := Step(Step(v0, p, Advance), p, Advance);
            && Advances(v0, p, 6) == Advances(v, p, 4)
            && v.handed == w.handed && v.history == w.history
            && (if PostsFirst(req.call)
                then v.files == Files(log + AppendOf(log, agents, req), agents, Some(p)) && PcOf(v, p) == Posted(req, log)
                else v.files == Files(log, agents, Some(p)) && PcOf(v, p) == Ready(req, log, agents))
  {
    var v0 := Step(Step(w, p, Begin(req)), p, Acquire);
    assert w.history + [] + [] == w.history && w.history + [] == w.history;
    AdvanceFrom(v0, p, Holding(req));
    AdvanceFrom(Step(v0, p, Advance), p, Loaded(req, w.files.log));
    if PostsFirst(req.call) {
      AppendIgnoresAgents(w.files.log, map[], w.files.agents, req);
    }
    hide OutcomeOf, AppendOf, AgentsOf, RefusalOf, WritesAgents, EarlyRefusal;
  }

  /** A process that finds the lock free and runs alone does what `RoomSpec` says of its request, answers, and leaves the lock free. */
  lemma AloneRefinesSpec(w: World, p: nat, req: Request)
    requires PcOf(w, p).Idle? && w.files.lock.None? && EarlyRefusal(w.files.log, req).None?
    ensures var v := Advances(Step(Step(w, p, Begin(req)), p, Acquire), p, 6);
            var (room, out) := (Room(w.files.log, w.files.agents), OutcomeOf(w.files.log, w.files.agents, req));
            && v.files == Files(Apply(room, req).log, Apply(room, req).agents, None) && PcOf(v, p) == Idle
            && v.history == w.history + [Completed(req, out)]
            && v.handed == HandOver(w.handed, Returning(req, out), Advance)
  {
    var log, agents := w.files.log, w.files.agents;
    var v0 := Step(Step(w, p, Begin(req)), p, Acquire);
    var v := Step(Step(v0, p, Advance), p, Advance);
    EntersAlone(w, p, req);
    if PostsFirst(req.call) {
      AdvanceFrom(v, p, Posted(req, log));
      assert v.history + [] == v.history;
      hide Step, OutcomeOf, AppendOf, AgentsOf, RefusalOf, WritesAgents, Apply;
      SettlesAlone(Step(v, p, Advance), p, req, log, 3);
    } else if req.call.Read? || RefusalOf(log, agents, req).Some? {
      OnlyPostersPost(log, agents, req);
      hide Step, OutcomeOf, AppendOf, AgentsOf, RefusalOf, WritesAgents, Apply;
      SettlesAlone(v, p, req, log, 4);
    } else {
      AdvanceFrom(v, p, Ready(req, log, agents));
      assert v.history + [] == v.history;
      hide Step, OutcomeOf, AppendOf, AgentsOf, RefusalOf, WritesAgents, Apply;
      SettlesAlone(Step(v, p, Advance), p, req, log, 3);
    }
  }

  /**
   * The exception above is real: from any world with unread events and a free lock, a reader that crashes
   * after releasing the lock and before answering leaves its cursor past events nobody was handed, with the room open to others.
   */
  lemma CrashBeforeAnswerLosesEvents(w: World, p: nat, agent: string, role: string)
    requires PcOf(w, p).Idle? && w.files.lock.None? && Increasing(w.files.log)
    requires After(w.files.log, LastRead(w.files.agents, agent)) != []
    ensures var req := Request(agent, role, Read(None, true, None));
            var v := Step(Advances(Step(Step(w, p, Begin(req)), p, Acquire), p, 4), p, Crash);
            && PcOf(v, p).Lost? && v.files.lock.None? && v.handed == w.handed
            && v.files.log == w.files.log && LastRead(v.files.agents, agent) > LastRead(w.files.agents, agent)
  {
    var req := Request(agent, role, Read(None, true, None));
    var log, agents := w.files.log, w.files.agents;
    assert log != [];
    var v := Step(Step(Step(Step(w, p, Begin(req)), p, Acquire), p, Advance), p, Advance);
    EntersAlone(w, p, req);
    MarkingReadMoves(log, agents, agent, role);
    CrashAfterReady(v, p, req, log);
    hide *;
  }

  lemma CrashAfterReady(v: World, p: nat, req: Request, log: seq<Event>)
    requires PcOf(v, p) == Ready(req, log, v.files.agents) && req.call.Read? && WritesAgents(log, v.files.agents, req)
    ensures var u := Step(Advances(v, p, 2), p, Crash);
            && PcOf(u, p).Lost? && u.files == Files(v.files.log, AgentsOf(log, v.files.agents, req), None) && u.handed == v.handed
            && Advances(v, p, 2) == Advances(Step(v, p, Advance), p, 1)
  {
    AdvanceFrom(v, p, Ready(req, log, v.files.agents));
    AdvanceFrom(Step(v, p, Advance), p, Written(req, OutcomeOf(log, v.files.agents, req)));
    hide OutcomeOf, AppendOf, AgentsOf, RefusalOf, WritesAgents;
  }

  lemma MarkingReadMoves(log: seq<Event>, agents: map<string, Agent>, agent: string, role: string)
    requires Increasing(log) && After(log, LastRead(agents, agent)) != []
    ensures var req := Request(agent, role, Read(None, true, None));
            WritesAgents(log, agents, req) && LastRead(AgentsOf(log, agents, req), agent) > LastRead(agents, agent)
  {
    var req := Request(agent, role, Read(None, true, None));
    assert RefusalOf(log, agents, req).None?;
    AgentsOfMovesOneCursor(log, agents, req, agent);
    PageReachesPast(log, LastRead(agents, agent), DEFAULT_LIMIT);
    hide AgentsOf, RefusalOf, Page, MaxSeq, LastRead;
  }

  lemma PageReachesPast(log: seq<Event>, cursor: nat, limit: nat)
    requires After(log, cursor) != [] && limit > 0
    ensures MaxSeq(Page(log, At(cursor), limit)) > cursor
  {
    AfterSpec(log, cursor);
    var page := Page(log, At(cursor), limit);
    MaxSeqBounds(page);
    hide MaxSeq, Increasing;
    assert page[0] in page && page[0] == After(log, cursor)[0] && After(log, cursor)[0] in After(log, cursor);
  }
}
