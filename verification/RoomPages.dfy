/** What one room request returns, refuses and leaves, in terms of positions in the log and the numbers the caller gave. */
module RoomPages {
  import opened Js
  import opened RoomSpec

  function Stored(agents: map<string, Agent>, agent: string): nat {
    if agent in agents then agents[agent].lastRead else 0
  }

  /** The number a read asks to start behind: the stored cursor, or the given number without its fraction, at least zero. */
  predicate StartsBehind(afterSeq: Option<JsNumber>, stored: nat, start: nat) {
    match afterSeq
    case None => start == stored
    case Some(NegInfinity) => start == 0
    case Some(Finite(x)) => if x < 0.0 then start == 0 else start as real <= x < start as real + 1.0
    case _ => false
  }

  /** The size of a page: 200 unless a number is given, which counts without its fraction, from 1 to 2000. */
  predicate HasSize(limit: Option<JsNumber>, size: nat) {
    match limit
    case None => size == 200
    case Some(NaN) => size == 200
    case Some(Infinity) => size == 2000
    case Some(NegInfinity) => size == 1
    case Some(Finite(x)) =>
      if x == 0.0 then size == 200
      else if x < 1.0 then size == 1
      else if x > 2000.0 then size == 2000
      else size as real <= x < size as real + 1.0
  }

  /** The events of the log up to position `p` are numbered up to `n`, the others above it. */
  ghost predicate SplitAt(log: seq<Event>, n: nat, p: int) {
    0 <= p <= |log| && (forall i :: 0 <= i < p ==> log[i].seqNo <= n) && (forall i :: p <= i < |log| ==> log[i].seqNo > n)
  }

  // ---------- Reads ----------

  lemma StartIsCursor(afterSeq: Option<JsNumber>, stored: nat, start: nat)
    requires StartsBehind(afterSeq, stored, start)
    ensures RequestedCursor(afterSeq, stored) == At(start)
  {
  }

  lemma SizeIsLimit(limit: Option<JsNumber>, size: nat)
    requires HasSize(limit, size)
    ensures EffectiveLimit(limit) == size
  {
  }

  lemma PageIsSlice(log: seq<Event>, start: nat, size: nat)
    requires Increasing(log)
    ensures exists p :: SplitAt(log, start, p) && After(log, start) == log[p..] && |After(log, start)| == |log| - p
              && Page(log, At(start), size) == log[p..Min(p + size, |log|)]
  {
    CursorSplits(log, start);
    var p := Passed(log, start);
    assert log[p..][..Min(size, |log| - p)] == log[p..Min(p + size, |log|)];
    assert SplitAt(log, start, p);
    hide After, Passed, Increasing;
  }

  lemma ReadIs(log: seq<Event>, agents: map<string, Agent>, agent: string, role: string, afterSeq: Option<JsNumber>, markRead: bool,
               limit: Option<JsNumber>, start: nat, size: nat)
    requires log != [] && StartsBehind(afterSeq, Stored(agents, agent), start) && HasSize(limit, size)
    ensures var out := OutcomeOf(log, agents, Request(agent, role, Read(afterSeq, markRead, limit)));
            if markRead && start > Stored(agents, agent) then out == Refused(SkipsUnread)
            else out.Returned? && out.events == Page(log, At(start), size) && (out.hasMore <==> |After(log, start)| > |Page(log, At(start), size)|)
  {
    StartIsCursor(afterSeq, Stored(agents, agent), start);
    SizeIsLimit(limit, size);
    hide After, MaxSeq, UnreadFor, EffectiveLimit, RequestedCursor, AgentsOf, StartsBehind, HasSize;
  }

  /**
   * A read of a room: refused exactly when it marks and asks to start past the stored cursor; otherwise it returns, in log order, the
   * events that stand behind the asked number, as many as a page holds, and says whether any are left.
   */
  lemma ReadReturnsNextEvents(log: seq<Event>, agents: map<string, Agent>, agent: string, role: string, afterSeq: Option<JsNumber>, markRead: bool,
                              limit: Option<JsNumber>, start: nat, size: nat)
    requires log != [] && Increasing(log) && StartsBehind(afterSeq, Stored(agents, agent), start) && HasSize(limit, size)
    ensures var out := OutcomeOf(log, agents, Request(agent, role, Read(afterSeq, markRead, limit)));
            && (out.Refused? <==> markRead && start > Stored(agents, agent))
            && (!out.Refused? ==>
                  && out.Returned?
                  && exists p :: SplitAt(log, start, p) && out.events == log[p..if p + size < |log| then p + size else |log|] && (out.hasMore <==> p + size < |log|))
  {
    ReadIs(log, agents, agent, role, afterSeq, markRead, limit, start, size);
    PageIsSlice(log, start, size);
    hide OutcomeOf, After, Page, Increasing, SplitAt, StartsBehind, HasSize;
  }

  /** Asked from zero, any read of a room whose numbers start at one is accepted and returns the log from its first event. */
  lemma RereadStartsOver(log: seq<Event>, agents: map<string, Agent>, agent: string, role: string, markRead: bool, limit: Option<JsNumber>, size: nat)
    requires log != [] && Increasing(log) && (forall i :: 0 <= i < |log| ==> 1 <= log[i].seqNo) && HasSize(limit, size)
    ensures var out := OutcomeOf(log, agents, Request(agent, role, Read(Some(Finite(0.0)), markRead, limit)));
            out.Returned? && out.events == if size < |log| then log[..size] else log
  {
    ReadReturnsNextEvents(log, agents, agent, role, Some(Finite(0.0)), markRead, limit, 0, size);
    hide OutcomeOf, HasSize, Increasing;
    var out := OutcomeOf(log, agents, Request(agent, role, Read(Some(Finite(0.0)), markRead, limit)));
    var p :| SplitAt(log, 0, p) && out.events == log[p..if p + size < |log| then p + size else |log|];
    assert 1 <= log[0].seqNo;
    assert p == 0;
    assert log[0..|log|] == log;
  }

  /** Numbers that are no position: `NaN` finds nothing and marks nothing, infinity finds nothing and may not mark. */
  lemma OddStarts(log: seq<Event>, agents: map<string, Agent>, agent: string, role: string, markRead: bool, limit: Option<JsNumber>)
    requires log != []
    ensures var out := OutcomeOf(log, agents, Request(agent, role, Read(Some(NaN), markRead, limit)));
            out.Returned? && out.events == [] && !out.hasMore && out.lastRead == Stored(agents, agent)
    ensures var out := OutcomeOf(log, agents, Request(agent, role, Read(Some(Infinity), markRead, limit)));
            if markRead then out == Refused(SkipsUnread) else out.Returned? && out.events == [] && !out.hasMore
  {
    hide UnreadFor, EffectiveLimit;
  }

  lemma MarkedCursorIs(log: seq<Event>, agents: map<string, Agent>, agent: string, role: string, afterSeq: Option<JsNumber>, markRead: bool,
                       limit: Option<JsNumber>)
    requires OutcomeOf(log, agents, Request(agent, role, Read(afterSeq, markRead, limit))).Returned?
    ensures var req := Request(agent, role, Read(afterSeq, markRead, limit));
            var (after, out) := (AgentsOf(log, agents, req), OutcomeOf(log, agents, req));
            && AppendOf(log, agents, req) == []
            && out.lastRead == Stored(after, agent)
            && (if markRead
                then after == agents[agent := Agent(role, if agent in agents then agents[agent].status else Active,
                                                    Max(Stored(agents, agent), MaxSeq(out.events)))]
                else after == agents)
  {
    hide After, MaxSeq, UnreadFor, EffectiveLimit, RequestedCursor, Page;
  }

  /** What a read leaves: the log as it was, and where it marks the reader's cursor at the last event returned, never further back than before. */
  lemma ReadLeaves(log: seq<Event>, agents: map<string, Agent>, agent: string, role: string, afterSeq: Option<JsNumber>, markRead: bool,
                   limit: Option<JsNumber>)
    requires Increasing(log) && OutcomeOf(log, agents, Request(agent, role, Read(afterSeq, markRead, limit))).Returned?
    ensures var req := Request(agent, role, Read(afterSeq, markRead, limit));
            var (next, out, stored) := (Apply(Room(log, agents), req), OutcomeOf(log, agents, req), Stored(agents, agent));
            var last := if out.events == [] then 0 else out.events[|out.events| - 1].seqNo;
            && next.log == log && out.lastRead == Stored(next.agents, agent)
            && (!markRead ==> next.agents == agents)
            && (markRead ==>
                  && agent in next.agents && next.agents[agent].lastRead == (if last > stored then last else stored)
                  && next.agents[agent].role == role && (agent in agents ==> next.agents[agent].status == agents[agent].status))
            && (forall other :: other != agent ==> (other in next.agents <==> other in agents) && (other in agents ==> next.agents[other] == agents[other]))
  {
    var req := Request(agent, role, Read(afterSeq, markRead, limit));
    var out := OutcomeOf(log, agents, req);
    MarkedCursorIs(log, agents, agent, role, afterSeq, markRead, limit);
    PagesIncrease(log, agents, req);
    if out.events != [] {
      MaxSeqIsLast(out.events);
    }
    assert log + [] == log;
    hide OutcomeOf, AgentsOf, AppendOf, Increasing;
  }

  lemma PagesIncrease(log: seq<Event>, agents: map<string, Agent>, req: Request)
    requires Increasing(log) && req.call.Read? && OutcomeOf(log, agents, req).Returned?
    ensures Increasing(OutcomeOf(log, agents, req).events)
  {
    var c := RequestedCursor(req.call.afterSeq, LastRead(agents, req.agent));
    if c.At? {
      CursorSplits(log, c.n);
    }
    hide After, MaxSeq, UnreadFor, EffectiveLimit, RequestedCursor, AgentsOf;
  }

  // ---------- Jobs ----------

  /** A message for the agent: not its own, and addressed to it or to all. */
  predicate IsFor(e: Event, agent: string) {
    e.kind == Message && (e.from == "" || e.from != agent) && (e.to == None || e.to == Some("") || e.to == Some(agent))
  }

  /** When a job may not end: no job is named, the room has no log, or a message for the agent stands behind its cursor and there is no override. */
  lemma FinishIsRefusedIff(log: seq<Event>, agents: map<string, Agent>, agent: string, role: string, jobId: string, allowUnread: bool)
    ensures OutcomeOf(log, agents, Request(agent, role, FinishJob(jobId, allowUnread))).Refused?
            <==> Blank(jobId) || log == []
                 || (!allowUnread && exists e :: e in log && IsFor(e, agent) && e.seqNo > Stored(agents, agent))
  {
    var unread := UnreadFor(log, Stored(agents, agent), agent);
    UnreadSpec(log, Stored(agents, agent), agent);
    assert unread != [] ==> unread[0] in unread;
    hide UnreadFor, MaxSeq, AgentsOf;
  }

  /** One line behind the log, under the number after the highest, and one entry for the agent; everything else as it was. */
  ghost predicate Enters(room: Room, next: Room, agent: string, kind: EventKind, body: string, entry: Agent) {
    && |next.log| == |room.log| + 1 && next.log[..|room.log|] == room.log
    && (var e := next.log[|room.log|];
        && e.kind == kind && e.from == agent && e.to == None && e.body == body
        && (forall before :: before in room.log ==> before.seqNo < e.seqNo)
        && (if room.log == [] then e.seqNo == 1 else exists before :: before in room.log && e.seqNo == before.seqNo + 1))
    && next.agents == room.agents[agent := entry]
  }

  lemma LineEnters(room: Room, agent: string, kind: EventKind, body: string, entry: Agent)
    ensures Enters(room, Room(room.log + [Event(MaxSeq(room.log) + 1, kind, agent, None, body)], room.agents[agent := entry]), agent, kind, body, entry)
  {
    MaxSeqBounds(room.log);
    hide MaxSeq;
    if room.log == [] {
      NoMaximum();
    }
  }

  lemma NoMaximum()
    ensures MaxSeq([]) == 0
  {
  }

  /** A job that starts or ends is one line of the log and the agent's entry, active or done; its cursor stays where it was. */
  lemma JobsEnter(room: Room, agent: string, role: string, jobId: string, allowUnread: bool)
    ensures var (req, stored) := (Request(agent, role, StartJob(jobId)), Stored(room.agents, agent));
            if Blank(jobId) then Apply(room, req) == room && OutcomeOf(room.log, room.agents, req).Refused?
            else Enters(room, Apply(room, req), agent, JobStart, Trim(jobId), Agent(role, Active, stored))
    ensures var (req, stored) := (Request(agent, role, FinishJob(jobId, allowUnread)), Stored(room.agents, agent));
            if OutcomeOf(room.log, room.agents, req).Refused? then Apply(room, req) == room
            else Enters(room, Apply(room, req), agent, JobDone, Trim(jobId), Agent(role, Done, stored))
  {
    var stored := Stored(room.agents, agent);
    LineEnters(room, agent, JobStart, Trim(jobId), Agent(role, Active, stored));
    LineEnters(room, agent, JobDone, Trim(jobId), Agent(role, Done, stored));
    assert room.log + [] == room.log;
    hide Enters, MaxSeq, UnreadFor, Trim;
  }

  // ---------- Creation and messages ----------

  /** Creating a room writes its first line and no agent; created again, it stays as it is. */
  lemma CreationEnters(room: Room, agent: string, role: string, title: string)
    ensures var next := Apply(room, Request(agent, role, Create(title)));
            && next.agents == room.agents
            && next.log == if room.log == [] then [Event(1, RoomCreated, "brain", None, Trim(title))] else room.log
  {
    hide Trim;
    assert room.log + [] == room.log;
  }

  /** An accepted message is one line under the next number, from its sender, to the trimmed name if one is given, and leaves the sender's status and cursor. */
  lemma MessagesEnter(room: Room, agent: string, role: string, to: Option<string>, message: string)
    ensures var req := Request(agent, role, Send(to, message));
            if Blank(message) then Apply(room, req) == room
            else
              var next := Apply(room, req);
              && |next.log| == |room.log| + 1 && next.log[..|room.log|] == room.log
              && (var e := next.log[|room.log|];
                  && e.kind == Message && e.from == agent && e.body == Trim(message)
                  && e.to == (if to.Some? && !Blank(to.value) then Some(Trim(to.value)) else None)
                  && (forall before :: before in room.log ==> before.seqNo < e.seqNo))
              && next.agents == room.agents[agent := Agent(role, if agent in room.agents then room.agents[agent].status else Active, Stored(room.agents, agent))]
  {
    MaxSeqBounds(room.log);
    assert room.log + [] == room.log;
    hide MaxSeq, Trim;
  }
}
