/**
 * The room tools as they run under the room lock: each reads `events.jsonl` and `agents.json`, loops
 * over the events, and writes back. Every tool is shown to do what `RoomSpec` says of its request.
 */
module RoomStore {
  import opened Js
  import opened RoomSpec

  lemma OneMore<T>(s: seq<T>, i: nat)
    requires i < |s|
    ensures s[..i + 1][..i] == s[..i] && s[..i + 1][i] == s[i] && |s[..i + 1]| == i + 1
  {
  }

  method HighestSeq(events: seq<Event>) returns (max: nat)
    ensures max == MaxSeq(events)
  {
    max := 0;
    for i := 0 to |events|
      invariant max == MaxSeq(events[..i])
    {
      OneMore(events, i);
      if events[i].seqNo > max {
        max := events[i].seqNo;
      }
    }
    assert events[..|events|] == events;
  }

  method EventsAfter(events: seq<Event>, cursor: Cursor) returns (filtered: seq<Event>)
    ensures filtered == AfterCursor(events, cursor)
  {
    filtered := [];
    for i := 0 to |events|
      invariant filtered == AfterCursor(events[..i], cursor)
    {
      OneMore(events, i);
      if cursor.At? && events[i].seqNo > cursor.n {
        filtered := filtered + [events[i]];
      }
    }
    assert events[..|events|] == events;
  }

  method UnreadRelevant(events: seq<Event>, cursor: nat, agent: string) returns (unread: seq<Event>)
    ensures unread == UnreadFor(events, cursor, agent)
  {
    unread := [];
    for i := 0 to |events|
      invariant unread == UnreadFor(events[..i], cursor, agent)
    {
      OneMore(events, i);
      if events[i].seqNo > cursor && Relevant(events[i], agent) {
        unread := unread + [events[i]];
      }
    }
    assert events[..|events|] == events;
  }

  class RoomFiles {
    var log: seq<Event>
    var agents: map<string, Agent>

    constructor ()
      ensures log == [] && agents == map[]
    {
      log := [];
      agents := map[];
    }

    ghost function Contents(): Room
      reads this
    {
      Room(log, agents)
    }

    method RoomCreate(agent: string, role: string, title: string) returns (out: Outcome)
      modifies this
      ensures var req := Request(agent, role, Create(title));
              Contents() == Apply(old(Contents()), req) && out == OutcomeOf(old(log), old(agents), req)
    {
      if log == [] {
        log := [Event(1, RoomCreated, "brain", None, Trim(title))];
      }
      out := Created;
    }

    method RoomJobStart(agent: string, role: string, jobId: string) returns (out: Outcome)
      modifies this
      ensures var req := Request(agent, role, StartJob(jobId));
              Contents() == Apply(old(Contents()), req) && out == OutcomeOf(old(log), old(agents), req)
    {
      if Blank(jobId) {
        assert log + [] == log;
        return Refused(MissingJobId);
      }
      var seqNo := HighestSeq(log);
      log := log + [Event(seqNo + 1, JobStart, agent, None, Trim(jobId))];
      var lastRead := if agent in agents then agents[agent].lastRead else 0;
      agents := agents[agent := Agent(role, Active, lastRead)];
      out := Appended(seqNo + 1);
    }

    method RoomSend(agent: string, role: string, to: Option<string>, message: string) returns (out: Outcome)
      modifies this
      ensures var req := Request(agent, role, Send(to, message));
              Contents() == Apply(old(Contents()), req) && out == OutcomeOf(old(log), old(agents), req)
    {
      if Blank(message) {
        assert log + [] == log;
        return Refused(MissingMessage);
      }
      var target := if to.Some? && !Blank(to.value) then Some(Trim(to.value)) else None;
      var seqNo := HighestSeq(log);
      log := log + [Event(seqNo + 1, Message, agent, target, Trim(message))];
      var status, lastRead := Active, 0;
      if agent in agents {
        status, lastRead := agents[agent].status, agents[agent].lastRead;
      }
      agents := agents[agent := Agent(role, status, lastRead)];
      out := Appended(seqNo + 1);
    }

    method RoomRead(agent: string, role: string, afterSeq: Option<JsNumber>, markRead: bool, limit: Option<JsNumber>)
      returns (out: Outcome)
      modifies this
      ensures var req := Request(agent, role, Read(afterSeq, markRead, limit));
              Contents() == Apply(old(Contents()), req) && out == OutcomeOf(old(log), old(agents), req)
    {
      assert log + [] == log;
      if log == [] {
        return Refused(RoomNotFound);
      }
      var status, lastRead := Active, 0;
      if agent in agents {
        status, lastRead := agents[agent].status, agents[agent].lastRead;
      }
      var cursor := RequestedCursor(afterSeq, lastRead);
      var filtered := EventsAfter(log, cursor);
      var returned := filtered[..Min(EffectiveLimit(limit), |filtered|)];
      var latestSeq := HighestSeq(returned);
      if markRead && AheadOf(cursor, lastRead) {
        return Refused(SkipsUnread);
      }
      if markRead {
        lastRead := Max(lastRead, latestSeq);
        agents := agents[agent := Agent(role, status, lastRead)];
      }
      var unread := UnreadRelevant(log, lastRead, agent);
      out := Returned(returned, |filtered| > |returned|, lastRead, |unread|);
    }

    method RoomJobDone(agent: string, role: string, jobId: string, allowUnread: bool) returns (out: Outcome)
      modifies this
      ensures var req := Request(agent, role, FinishJob(jobId, allowUnread));
              Contents() == Apply(old(Contents()), req) && out == OutcomeOf(old(log), old(agents), req)
    {
      assert log + [] == log;
      if Blank(jobId) {
        return Refused(MissingJobId);
      }
      if log == [] {
        return Refused(RoomNotFound);
      }
      var lastRead := if agent in agents then agents[agent].lastRead else 0;
      var unread := UnreadRelevant(log, lastRead, agent);
      if |unread| > 0 && !allowUnread {
        return Refused(UnreadMessages(unread));
      }
      var seqNo := HighestSeq(log);
      log := log + [Event(seqNo + 1, JobDone, agent, None, Trim(jobId))];
      agents := agents[agent := Agent(role, Done, lastRead)];
      out := Appended(seqNo + 1);
    }
  }
}
