/** What agents may conclude from what a room tells them: read counts, and messages sent before a job ends. */
module RoomMessages {
  import opened Js
  import opened RoomSpec
  import opened RoomReads
  import opened RoomProtocol
  import opened RoomRuns

  // ---------- The counts a read reports ----------

  /** The reported count can be trusted: it is zero exactly when the job may end now, whatever the read's cursor, limit and marking. */
  lemma UnreadCountIsTrusted(room: Room, req: Request, jobId: string)
    requires req.call.Read? && !Blank(jobId)
    requires var out := OutcomeOf(room.log, room.agents, req); out.Returned?
    ensures var (next, out) := (Apply(room, req), OutcomeOf(room.log, room.agents, req));
            out.unreadRelevant == 0
            <==> OutcomeOf(next.log, next.agents, Request(req.agent, req.role, FinishJob(jobId, false))) == Appended(MaxSeq(room.log) + 1)
  {
    assert room.log + [] == room.log;
    hide Relevant, After, MaxSeq, UnreadFor, RequestedCursor, EffectiveLimit, Blank;
  }

  /** `hasMore` of a default read is true exactly when the next default read would return something. */
  lemma HasMoreIsTrue(room: Room, agent: string, role: string, limit: Option<JsNumber>)
    requires room.log != [] && Increasing(room.log)
    ensures var req := DefaultRead(agent, role, limit);
            var (out, next) := (OutcomeOf(room.log, room.agents, req), Apply(room, req));
            var again := OutcomeOf(next.log, next.agents, req);
            && out.Returned? && again.Returned?
            && (out.hasMore <==> again.events != [])
  {
    hide OutcomeOf, Apply, Increasing, Passed, DefaultRead;
    var req, n := DefaultRead(agent, role, limit), EffectiveLimit(limit);
    var next := Apply(room, req);
    ReadTurnsPage(room, agent, role, limit);
    ReadTurnsPage(next, agent, role, limit);
    MoreIsReported(room.log, room.agents, agent, role, limit);
    LeftAfter(room.log, LastRead(room.agents, agent));
    LeftAfter(room.log, LastRead(next.agents, agent));
    hide After, LastRead, EffectiveLimit;
  }

  lemma LeftAfter(log: seq<Event>, cursor: nat)
    requires Increasing(log)
    ensures |After(log, cursor)| == |log| - Passed(log, cursor)
  {
    CursorSplits(log, cursor);
  }

  lemma ReadTurnsPage(room: Room, agent: string, role: string, limit: Option<JsNumber>)
    requires room.log != [] && Increasing(room.log)
    ensures var req := DefaultRead(agent, role, limit);
            var (out, next) := (OutcomeOf(room.log, room.agents, req), Apply(room, req));
            && out.Returned? && next.log == room.log
            && |out.events| == Min(EffectiveLimit(limit), |After(room.log, LastRead(room.agents, agent))|)
            && Passed(room.log, LastRead(next.agents, agent)) == Min(Passed(room.log, LastRead(room.agents, agent)) + EffectiveLimit(limit), |room.log|)
  {
    hide OutcomeOf, Apply, Increasing, Passed, DefaultRead, MaxSeq, After, LastRead;
    DefaultReadTurnsPage(room, agent, role, limit);
    PageMovesCursor(room.log, LastRead(room.agents, agent), EffectiveLimit(limit));
  }

  lemma MoreIsReported(log: seq<Event>, agents: map<string, Agent>, agent: string, role: string, limit: Option<JsNumber>)
    requires log != []
    ensures var out := OutcomeOf(log, agents, DefaultRead(agent, role, limit));
            out.Returned? && (out.hasMore <==> |After(log, LastRead(agents, agent))| > EffectiveLimit(limit))
  {
    hide After, MaxSeq, UnreadFor, EffectiveLimit, AgentsOf;
  }

  // ---------- Messages ----------

  /** Whom a message is for: the named agent, or without a name everyone but its sender. */
  predicate Addressed(to: Option<string>, sender: string, reader: string) {
    reader != sender && (to.None? || Blank(to.value) || Trim(to.value) == reader)
  }

  /** An accepted message is one line, with its text trimmed, relevant to exactly the agents it is addressed to. */
  lemma MessagesReachTheirReaders(log: seq<Event>, agents: map<string, Agent>, req: Request, reader: string)
    requires req.call.Send? && !OutcomeOf(log, agents, req).Refused? && req.agent != "" && reader != ""
    ensures var sent := AppendOf(log, agents, req);
            && |sent| == 1 && sent[0].body == Trim(req.call.message) && sent[0].from == req.agent
            && OutcomeOf(log, agents, req) == Appended(sent[0].seqNo)
            && (Relevant(sent[0], reader) <==> Addressed(req.call.to, req.agent, reader))
  {
    hide MaxSeq, Trim;
  }

  /** The line an accepted message left, in a history that holds it. */
  ghost predicate IsSent(e: Event, c: Commit) {
    c.Completed? && c.req.call.Send? && c.outcome == Appended(e.seqNo) && e.from == c.req.agent && e.body == Trim(c.req.call.message)
  }

  lemma SentLineIsLogged(history: seq<Commit>, i: nat, j: nat, reader: string)
    requires Sequential(history) && i < j <= |history|
    requires var c := history[i];
             c.Completed? && c.req.call.Send? && c.outcome.Appended? && c.req.agent != "" && reader != "" && Addressed(c.req.call.to, c.req.agent, reader)
    ensures exists e :: e in Replay(history[..j]).room.log && IsSent(e, history[i]) && Relevant(e, reader)
  {
    hide OutcomeOf, AppendOf, Relevant, Addressed, Trim, Record, Replay, Sequential;
    var c := history[i];
    var room := Replay(history[..i]).room;
    OutcomeAt(history, i);
    MessagesReachTheirReaders(room.log, room.agents, c.req, reader);
    var e := AppendOf(room.log, room.agents, c.req)[0];
    CursorsNeverMoveBack(history, j, "");
    CursorsNeverMoveBack(history[..j], i + 1, "");
    assert history[..j][..i + 1] == history[..i + 1];
    LineIsIn(Replay(history[..i]), c, e);
    OneMoreCommit(history, i);
    assert e in Replay(history[..j]).room.log;
    assert IsSent(e, c);
  }

  lemma OneMoreCommit(history: seq<Commit>, i: nat)
    requires i < |history|
    ensures Replay(history[..i + 1]) == Record(Replay(history[..i]), history[i])
  {
    hide Record;
    assert history[..i + 1][..i] == history[..i];
  }

  lemma LineIsIn(a: Audit, c: Commit, e: Event)
    requires c.Completed? && AppendOf(a.room.log, a.room.agents, c.req) == [e]
    ensures e in Record(a, c).room.log
  {
    hide AppendOf, AgentsOf;
  }

  /**
   * In every interleaving: a message accepted before its reader's job ended without the override was returned to that
   * reader, or is in the answer of a read that moved the cursor and has not answered.
   */
  lemma SentBeforeFinished(turns: seq<Turn>, i: nat, j: nat)
    requires var history := Run(INITIAL, turns).history;
             && i < j < |history| && history[i].Completed? && history[i].req.call.Send? && history[i].outcome.Appended?
             && history[j].Completed? && history[j].outcome.Appended? && history[j].req.call.FinishJob? && !history[j].req.call.allowUnread
             && history[i].req.agent != "" && history[j].req.agent != ""
             && Addressed(history[i].req.call.to, history[i].req.agent, history[j].req.agent)
    ensures var w := Run(INITIAL, turns);
            exists e :: IsSent(e, w.history[i]) && Accounted(w, w.history[j].req.agent, e)
  {
    var w := Run(INITIAL, turns);
    RunKeepsInv(turns);
    var reader := w.history[j].req.agent;
    SentLineIsLogged(w.history, i, j, reader);
    var e :| e in Replay(w.history[..j]).room.log && IsSent(e, w.history[i]) && Relevant(e, reader);
    FinishedJobsWereInformed(turns, j, e);
    hide Run, Accounted, IsSent, Relevant, Replay, Sequential, Addressed;
  }
}
