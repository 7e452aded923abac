/**
 * Workflow rooms as values: the event log, the read cursors, and what each room tool does to them
 * when it runs alone. `Commit`s put the tools in sequence and keep account of the events each agent
 * was handed.
 */
module RoomSpec {
  import opened Js

  datatype EventKind = RoomCreated | JobStart | Message | JobDone

  datatype Event = Event(seqNo: nat, kind: EventKind, from: string, to: Option<string>, body: string)

  datatype Status = Active | Done | Aborted

  datatype Agent = Agent(role: string, status: Status, lastRead: nat)

  datatype Room = Room(log: seq<Event>, agents: map<string, Agent>)

  datatype Call =
    | Create(title: string)
    | StartJob(jobId: string)
    | Send(to: Option<string>, message: string)
    | Read(afterSeq: Option<JsNumber>, markRead: bool, limit: Option<JsNumber>)
    | FinishJob(jobId: string, allowUnread: bool)

  datatype Request = Request(agent: string, role: string, call: Call)

  datatype Refusal = RoomNotFound | MissingJobId | MissingMessage | SkipsUnread | UnreadMessages(unread: seq<Event>)

  datatype Outcome =
    | Refused(reason: Refusal)
    | Created
    | Appended(seqNo: nat)
    | Returned(events: seq<Event>, hasMore: bool, lastRead: nat, unreadRelevant: nat)

  const EMPTY_ROOM := Room([], map[])
  const DEFAULT_LIMIT := 200
  const MAX_LIMIT := 2000

  // ---------- The log and the cursors ----------

  function MaxSeq(log: seq<Event>): nat {
    if log == [] then 0 else Max(MaxSeq(log[..|log| - 1]), log[|log| - 1].seqNo)
  }

  function LastRead(agents: map<string, Agent>, agent: string): nat {
    if agent in agents then agents[agent].lastRead else 0
  }

  predicate Relevant(e: Event, agent: string) {
    e.kind.Message? && !(e.from != "" && e.from == agent)
    && (e.to.None? || e.to.value == "" || e.to.value == agent)
  }

  /** The events past a cursor, in log order. */
  function After(log: seq<Event>, cursor: nat): seq<Event> {
    if log == [] then []
    else
      var e := log[|log| - 1];
      After(log[..|log| - 1], cursor) + if e.seqNo > cursor then [e] else []
  }

  function UnreadFor(log: seq<Event>, cursor: nat, agent: string): seq<Event> {
    if log == [] then []
    else
      var e := log[|log| - 1];
      UnreadFor(log[..|log| - 1], cursor, agent) + if e.seqNo > cursor && Relevant(e, agent) then [e] else []
  }

  /** `limit` as room_read clamps it; a slice truncates what is left of a fraction. */
  function EffectiveLimit(limit: Option<JsNumber>): (n: nat)
    ensures 1 <= n <= MAX_LIMIT
  {
    match limit
    case None => DEFAULT_LIMIT
    case Some(NaN) => DEFAULT_LIMIT
    case Some(Infinity) => MAX_LIMIT
    case Some(NegInfinity) => 1
    case Some(Finite(x)) =>
      if x == 0.0 then DEFAULT_LIMIT else if x < 1.0 then 1 else if x > 2000.0 then MAX_LIMIT else x.Floor
  }

  /** Where a read starts: a sequence number, or a position no event lies after. */
  datatype Cursor = At(n: nat) | Beyond | Unordered

  function RequestedCursor(afterSeq: Option<JsNumber>, lastRead: nat): Cursor {
    match afterSeq
    case None => At(lastRead)
    case Some(NaN) => Unordered
    case Some(Infinity) => Beyond
    case Some(NegInfinity) => At(0)
    case Some(Finite(x)) => At(Max(0, x.Floor))
  }

  function AfterCursor(log: seq<Event>, c: Cursor): seq<Event> {
    if c.At? then After(log, c.n) else []
  }

  predicate AheadOf(c: Cursor, lastRead: nat) {
    c.Beyond? || (c.At? && c.n > lastRead)
  }

  function Page(log: seq<Event>, c: Cursor, limit: nat): seq<Event> {
    var available := AfterCursor(log, c);
    available[..Min(limit, |available|)]
  }

  // ---------- What one request does ----------

  function RefusalOf(log: seq<Event>, agents: map<string, Agent>, req: Request): Option<Refusal> {
    var lastRead := LastRead(agents, req.agent);
    match req.call
    case Create(_) => None
    case StartJob(jobId) => if Blank(jobId) then Some(MissingJobId) else None
    case Send(_, message) => if Blank(message) then Some(MissingMessage) else None
    case Read(afterSeq, markRead, _) =>
      if log == [] then Some(RoomNotFound)
      else if markRead && AheadOf(RequestedCursor(afterSeq, lastRead), lastRead) then Some(SkipsUnread)
      else None
    case FinishJob(jobId, allowUnread) =>
      if Blank(jobId) then Some(MissingJobId)
      else if log == [] then Some(RoomNotFound)
      else
        var unread := UnreadFor(log, lastRead, req.agent);
        if unread != [] && !allowUnread then Some(UnreadMessages(unread)) else None
  }

  function NewEvent(log: seq<Event>, kind: EventKind, from: string, to: Option<string>, body: string): Event {
    Event(MaxSeq(log) + 1, kind, from, to, body)
  }

  /** The line an accepted request adds to the log: one, or none. */
  function AppendOf(log: seq<Event>, agents: map<string, Agent>, req: Request): seq<Event> {
    if RefusalOf(log, agents, req).Some? then []
    else
      match req.call
      case Create(title) => if log == [] then [Event(1, RoomCreated, "brain", None, Trim(title))] else []
      case StartJob(jobId) => [NewEvent(log, JobStart, req.agent, None, Trim(jobId))]
      case Send(to, message) =>
        [NewEvent(log, Message, req.agent, if to.Some? && !Blank(to.value) then Some(Trim(to.value)) else None, Trim(message))]
      case Read(_, _, _) => []
      case FinishJob(jobId, _) => [NewEvent(log, JobDone, req.agent, None, Trim(jobId))]
  }

  /** The agents file an accepted request leaves; `log` is the log before the request's own line. */
  function AgentsOf(log: seq<Event>, agents: map<string, Agent>, req: Request): map<string, Agent> {
    if RefusalOf(log, agents, req).Some? then agents
    else
      var lastRead := LastRead(agents, req.agent);
      var status := if req.agent in agents then agents[req.agent].status else Active;
      match req.call
      case Create(_) => agents
      case StartJob(_) => agents[req.agent := Agent(req.role, Active, lastRead)]
      case Send(_, _) => agents[req.agent := Agent(req.role, status, lastRead)]
      case Read(afterSeq, markRead, limit) =>
        if !markRead then agents
        else
          var page := Page(log, RequestedCursor(afterSeq, lastRead), EffectiveLimit(limit));
          agents[req.agent := Agent(req.role, status, Max(lastRead, MaxSeq(page)))]
      case FinishJob(_, _) => agents[req.agent := Agent(req.role, Done, lastRead)]
  }

  function OutcomeOf(log: seq<Event>, agents: map<string, Agent>, req: Request): Outcome {
    var refusal := RefusalOf(log, agents, req);
    if refusal.Some? then Refused(refusal.value)
    else
      match req.call
      case Create(_) => Created
      case Read(afterSeq, _, limit) =>
        var cursor := RequestedCursor(afterSeq, LastRead(agents, req.agent));
        var page := Page(log, cursor, EffectiveLimit(limit));
        var lastRead := LastRead(AgentsOf(log, agents, req), req.agent);
        Returned(page, |AfterCursor(log, cursor)| > |page|, lastRead, |UnreadFor(log, lastRead, req.agent)|)
      case _ => Appended(MaxSeq(log) + 1)
  }

  function Apply(room: Room, req: Request): Room {
    Room(room.log + AppendOf(room.log, room.agents, req), AgentsOf(room.log, room.agents, req))
  }

  // ---------- Sequences of requests and what was delivered ----------

  /** A request that ran to its end, or one that failed after its line was appended. */
  datatype Commit = Completed(req: Request, outcome: Outcome) | Torn(req: Request)

  /** A room together with the events each agent has been handed so far. */
  datatype Audit = Audit(room: Room, delivered: map<string, set<Event>>)

  function Got(a: Audit, agent: string): set<Event> {
    if agent in a.delivered then a.delivered[agent] else {}
  }

  function Record(a: Audit, c: Commit): Audit {
    match c
    case Torn(req) => a.(room := Room(a.room.log + AppendOf(a.room.log, a.room.agents, req), a.room.agents))
    case Completed(req, outcome) =>
      Audit(Apply(a.room, req),
            if outcome.Returned? then a.delivered[req.agent := Got(a, req.agent) + set e | e in outcome.events]
            else a.delivered)
  }

  function Replay(history: seq<Commit>): Audit {
    if history == [] then Audit(EMPTY_ROOM, map[])
    else Record(Replay(history[..|history| - 1]), history[|history| - 1])
  }

  /** Every recorded outcome is the one the request has when it runs alone after the commits before it. */
  ghost predicate Sequential(history: seq<Commit>) {
    history == []
    || (Sequential(history[..|history| - 1])
        && var c := history[|history| - 1];
           var room := Replay(history[..|history| - 1]).room;
           c.Completed? ==> c.outcome == OutcomeOf(room.log, room.agents, c.req))
  }

  // ---------- Facts about the log ----------

  ghost predicate Increasing(log: seq<Event>) {
    forall i, j :: 0 <= i < j < |log| ==> log[i].seqNo < log[j].seqNo
  }

  lemma {:induction false} MaxSeqBounds(log: seq<Event>)
    ensures forall e :: e in log ==> e.seqNo <= MaxSeq(log)
    ensures log != [] ==> exists e :: e in log && e.seqNo == MaxSeq(log)
  {
    if log != [] {
      var front := log[..|log| - 1];
      MaxSeqBounds(front);
      assert log == front + [log[|log| - 1]];
      if front == [] {
        assert log[0] in log && log[0].seqNo == MaxSeq(log);
      } else {
        var w :| w in front && w.seqNo == MaxSeq(front);
        assert w in log && log[|log| - 1] in log;
      }
    }
  }

  lemma {:induction false} AfterSpec(log: seq<Event>, cursor: nat)
    ensures forall e :: e in After(log, cursor) <==> e in log && e.seqNo > cursor
  {
    if log != [] {
      AfterSpec(log[..|log| - 1], cursor);
      assert log == log[..|log| - 1] + [log[|log| - 1]];
    }
  }

  lemma {:induction false} UnreadSpec(log: seq<Event>, cursor: nat, agent: string)
    ensures forall e :: e in UnreadFor(log, cursor, agent) <==> e in log && e.seqNo > cursor && Relevant(e, agent)
  {
    if log != [] {
      UnreadSpec(log[..|log| - 1], cursor, agent);
      assert log == log[..|log| - 1] + [log[|log| - 1]];
    }
  }

  /** How many events of the log a cursor has passed. */
  function Passed(log: seq<Event>, cursor: nat): (n: nat)
    ensures n <= |log|
  {
    if log == [] then 0
    else if log[|log| - 1].seqNo > cursor then Passed(log[..|log| - 1], cursor) else |log|
  }

  /** A cursor splits an increasing log in two. */
  lemma {:induction false} CursorSplits(log: seq<Event>, cursor: nat)
    requires Increasing(log)
    ensures After(log, cursor) == log[Passed(log, cursor)..]
    ensures forall i :: 0 <= i < Passed(log, cursor) ==> log[i].seqNo <= cursor
    ensures forall i :: Passed(log, cursor) <= i < |log| ==> log[i].seqNo > cursor
  {
    if log != [] {
      var front, e := log[..|log| - 1], log[|log| - 1];
      CursorSplits(front, cursor);
      if e.seqNo > cursor {
        assert log[Passed(front, cursor)..] == front[Passed(front, cursor)..] + [e];
      } else {
        assert Passed(front, cursor) == |front| by {
          assert forall i :: 0 <= i < |front| ==> front[i].seqNo < e.seqNo;
        }
      }
    }
  }

  lemma {:induction false} PassedAt(log: seq<Event>, n: nat)
    requires Increasing(log) && 0 < n <= |log|
    ensures Passed(log, log[n - 1].seqNo) == n
  {
    if n < |log| {
      PassedAt(log[..|log| - 1], n);
    }
  }

  lemma {:induction false} MaxSeqIsLast(log: seq<Event>)
    requires Increasing(log) && log != []
    ensures MaxSeq(log) == log[|log| - 1].seqNo
  {
    if |log| > 1 {
      MaxSeqIsLast(log[..|log| - 1]);
    }
  }

  /** In an increasing log the next `n` events past a cursor are all the events up to their highest number. */
  lemma PageIsGapFree(log: seq<Event>, cursor: nat, n: nat, e: Event)
    requires Increasing(log) && n <= |After(log, cursor)|
    requires e in log && cursor < e.seqNo <= MaxSeq(After(log, cursor)[..n])
    ensures e in After(log, cursor)[..n]
  {
    CursorSplits(log, cursor);
    var page := After(log, cursor)[..n];
    MaxSeqIsLast(page);
    var i :| 0 <= i < |log| && log[i] == e;
    assert page[n - 1] == log[Passed(log, cursor) + n - 1];
    assert page[i - Passed(log, cursor)] == e;
  }

  // ---------- Main results ----------

  /** The delivered prefix: below a cursor there is no event the agent was not handed. */
  ghost predicate LosesNothing(a: Audit) {
    && Increasing(a.room.log)
    && (forall e :: e in a.room.log ==> 1 <= e.seqNo)
    && (forall agent :: LastRead(a.room.agents, agent) <= MaxSeq(a.room.log))
    && (forall agent, e :: e in a.room.log && e.seqNo <= LastRead(a.room.agents, agent) ==> e in Got(a, agent))
  }

  lemma AppendedNumber(log: seq<Event>, agents: map<string, Agent>, req: Request)
    ensures var more := AppendOf(log, agents, req);
            |more| <= 1 && (more != [] ==> more[0].seqNo == MaxSeq(log) + 1)
  {
    match req.call
    case Create(_) =>
    case StartJob(_) =>
    case Send(_, _) =>
    case Read(_, _, _) =>
    case FinishJob(_, _) =>
  }

  lemma AppendKeepsOrder(log: seq<Event>, e: Event)
    requires Increasing(log) && e.seqNo == MaxSeq(log) + 1
    ensures Increasing(log + [e]) && MaxSeq(log + [e]) == e.seqNo
  {
    MaxSeqBounds(log);
    assert forall i :: 0 <= i < |log| ==> log[i] in log;
    assert (log + [e])[..|log + [e]| - 1] == log;
  }

  /** The only request that moves a cursor is an accepted read with markRead, and only its own agent's. */
  lemma AgentsOfMovesOneCursor(log: seq<Event>, agents: map<string, Agent>, req: Request, agent: string)
    ensures var moves := agent == req.agent && req.call.Read? && req.call.markRead && RefusalOf(log, agents, req).None?;
            LastRead(AgentsOf(log, agents, req), agent)
            == if moves then Max(LastRead(agents, agent), MaxSeq(Page(log, RequestedCursor(req.call.afterSeq, LastRead(agents, agent)), EffectiveLimit(req.call.limit))))
               else LastRead(agents, agent)
  {
    match req.call
    case Create(_) =>
    case StartJob(_) =>
    case Send(_, _) =>
    case Read(_, _, _) =>
    case FinishJob(_, _) =>
  }

  /** What a marking read covers: nothing up to its agent's new cursor is missing from the page or from what was read before. */
  lemma ReadCoversItsCursor(log: seq<Event>, agents: map<string, Agent>, req: Request, e: Event)
    requires Increasing(log)
    requires req.call.Read? && req.call.markRead && RefusalOf(log, agents, req).None?
    requires e in log && LastRead(agents, req.agent) < e.seqNo
    requires e.seqNo <= MaxSeq(Page(log, RequestedCursor(req.call.afterSeq, LastRead(agents, req.agent)), EffectiveLimit(req.call.limit)))
    ensures e in OutcomeOf(log, agents, req).events
  {
    var c := RequestedCursor(req.call.afterSeq, LastRead(agents, req.agent));
    if c.At? {
      PageIsGapFree(log, c.n, |Page(log, c, EffectiveLimit(req.call.limit))|, e);
    }
  }

  lemma PageStaysInLog(log: seq<Event>, c: Cursor, limit: nat)
    ensures forall e :: e in Page(log, c, limit) ==> e in log
    ensures MaxSeq(Page(log, c, limit)) <= MaxSeq(log)
  {
    var page := Page(log, c, limit);
    if c.At? {
      AfterSpec(log, c.n);
      assert forall i :: 0 <= i < |page| ==> page[i] in After(log, c.n);
    }
    MaxSeqBounds(log);
    MaxSeqBounds(page);
  }

  /** One commit moves no cursor back, takes no delivery back, and moves no cursor past the log. */
  lemma CommitIsMonotone(a: Audit, c: Commit, agent: string)
    requires LastRead(a.room.agents, agent) <= MaxSeq(a.room.log)
    ensures LastRead(a.room.agents, agent) <= LastRead(Record(a, c).room.agents, agent) <= MaxSeq(a.room.log)
    ensures Got(a, agent) <= Got(Record(a, c), agent)
  {
    AgentsOfMovesOneCursor(a.room.log, a.room.agents, c.req, agent);
    if c.req.call.Read? {
      PageStaysInLog(a.room.log, RequestedCursor(c.req.call.afterSeq, LastRead(a.room.agents, agent)), EffectiveLimit(c.req.call.limit));
    }
  }

  /** One commit keeps the delivered prefix free of gaps. */
  lemma CommitDeliversItsCursor(a: Audit, c: Commit, agent: string, e: Event)
    requires LosesNothing(a) && e in a.room.log
    requires c.Completed? ==> c.outcome == OutcomeOf(a.room.log, a.room.agents, c.req)
    requires e.seqNo <= LastRead(Record(a, c).room.agents, agent)
    ensures e in Got(Record(a, c), agent)
  {
    CommitIsMonotone(a, c, agent);
    if LastRead(a.room.agents, agent) < e.seqNo {
      AgentsOfMovesOneCursor(a.room.log, a.room.agents, c.req, agent);
      ReadCoversItsCursor(a.room.log, a.room.agents, c.req, e);
    }
  }

  lemma CommitKeepsOrder(a: Audit, c: Commit)
    requires LosesNothing(a)
    ensures var log := Record(a, c).room.log;
            && Increasing(log) && a.room.log <= log && MaxSeq(a.room.log) <= MaxSeq(log)
            && (forall e :: e in log && e !in a.room.log ==> e.seqNo == MaxSeq(a.room.log) + 1)
  {
    var more := AppendOf(a.room.log, a.room.agents, c.req);
    AppendedNumber(a.room.log, a.room.agents, c.req);
    if more != [] {
      AppendKeepsOrder(a.room.log, more[0]);
      assert a.room.log + more == a.room.log + [more[0]];
    } else {
      assert a.room.log + more == a.room.log;
    }
  }

  lemma CommitLosesNothing(a: Audit, c: Commit)
    requires LosesNothing(a)
    requires c.Completed? ==> c.outcome == OutcomeOf(a.room.log, a.room.agents, c.req)
    ensures LosesNothing(Record(a, c))
  {
    var b := Record(a, c);
    CommitKeepsOrder(a, c);
    forall agent
      ensures LastRead(b.room.agents, agent) <= MaxSeq(b.room.log)
    {
      CommitIsMonotone(a, c, agent);
    }
    forall agent, e | e in b.room.log && e.seqNo <= LastRead(b.room.agents, agent)
      ensures e in Got(b, agent)
    {
      CommitIsMonotone(a, c, agent);
      CommitDeliversItsCursor(a, c, agent, e);
    }
  }

  /** Rooms lose nothing, whatever the requests, limits, cursors and failures. */
  lemma {:induction false} RoomsLoseNothing(history: seq<Commit>)
    requires Sequential(history)
    ensures LosesNothing(Replay(history))
  {
    if history != [] {
      RoomsLoseNothing(history[..|history| - 1]);
      CommitLosesNothing(Replay(history[..|history| - 1]), history[|history| - 1]);
    }
  }

  /** Later commits keep the log as a prefix, never move a cursor back and never take a delivery back. */
  lemma {:induction false} CursorsNeverMoveBack(history: seq<Commit>, n: nat, agent: string)
    requires Sequential(history) && n <= |history|
    ensures Sequential(history[..n])
    ensures Replay(history[..n]).room.log <= Replay(history).room.log
    ensures LastRead(Replay(history[..n]).room.agents, agent) <= LastRead(Replay(history).room.agents, agent)
    ensures Got(Replay(history[..n]), agent) <= Got(Replay(history), agent)
  {
    if n == |history| {
      assert history[..n] == history;
    } else {
      var front := history[..|history| - 1];
      assert history[..n] == front[..n];
      CursorsNeverMoveBack(front, n, agent);
      RoomsLoseNothing(front);
      CommitIsMonotone(Replay(front), history[|history| - 1], agent);
    }
  }

  /** A refused request changes neither file, and hands nothing over. */
  lemma RefusedChangesNothing(a: Audit, req: Request)
    requires OutcomeOf(a.room.log, a.room.agents, req).Refused?
    ensures Record(a, Completed(req, OutcomeOf(a.room.log, a.room.agents, req))) == a
  {
    assert a.room.log + [] == a.room.log;
  }

  /** A job that ends without the override has been handed every relevant message logged before it. */
  lemma FinishIsInformed(history: seq<Commit>, req: Request)
    requires Sequential(history)
    requires req.call.FinishJob? && !req.call.allowUnread
    requires var room := Replay(history).room; !OutcomeOf(room.log, room.agents, req).Refused?
    ensures forall e :: e in Replay(history).room.log && Relevant(e, req.agent) ==> e in Got(Replay(history), req.agent)
  {
    var a := Replay(history);
    RoomsLoseNothing(history);
    UnreadSpec(a.room.log, LastRead(a.room.agents, req.agent), req.agent);
    forall e | e in a.room.log && Relevant(e, req.agent)
      ensures e in Got(a, req.agent)
    {
      assert e !in UnreadFor(a.room.log, LastRead(a.room.agents, req.agent), req.agent);
    }
  }

  /** An acknowledged append is in the log of every later state, under the number that was acknowledged. */
  lemma {:induction false} AcknowledgedAppendsStay(history: seq<Commit>, i: nat)
    requires Sequential(history) && i < |history|
    requires history[i].Completed? && history[i].outcome.Appended?
    ensures exists e :: e in Replay(history).room.log && e.seqNo == history[i].outcome.seqNo && e.from == history[i].req.agent
  {
    var before, upTo := history[..i], history[..i + 1];
    CursorsNeverMoveBack(history, i + 1, "");
    assert upTo[..|upTo| - 1] == before && upTo[|upTo| - 1] == history[i];
    AppendedLineIsLast(Replay(before), history[i]);
    var log, final := Replay(upTo).room.log, Replay(history).room.log;
    assert final[|log| - 1] == log[|log| - 1];
  }

  lemma AppendedLineIsLast(a: Audit, c: Commit)
    requires c.Completed? && c.outcome == OutcomeOf(a.room.log, a.room.agents, c.req) && c.outcome.Appended?
    ensures var log := Record(a, c).room.log;
            log != [] && log[|log| - 1].seqNo == c.outcome.seqNo && log[|log| - 1].from == c.req.agent
  {
    var more := AppendOf(a.room.log, a.room.agents, c.req);
    assert RefusalOf(a.room.log, a.room.agents, c.req).None?;
    assert |more| == 1;
  }
}
