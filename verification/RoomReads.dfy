/**
 * Reading a room to its end: repeated reads return the log page by page, without a gap or a repeat,
 * until a job may finish.
 */
module RoomReads {
  import opened Js
  import opened RoomSpec

  function DefaultRead(agent: string, role: string, limit: Option<JsNumber>): Request {
    Request(agent, role, Read(None, true, limit))
  }

  /** `k` default reads in a row: the room they leave and the events they returned, in order. */
  function Drain(room: Room, req: Request, k: nat): (Room, seq<Event>) {
    if k == 0 then (room, [])
    else
      var (r, got) := Drain(room, req, k - 1);
      var out := OutcomeOf(r.log, r.agents, req);
      (Apply(r, req), got + if out.Returned? then out.events else [])
  }

  /** One default read returns the next page and leaves the cursor at the page's end. */
  lemma DefaultReadTurnsPage(room: Room, agent: string, role: string, limit: Option<JsNumber>)
    requires room.log != []
    ensures var req := DefaultRead(agent, role, limit);
            var lastRead := LastRead(room.agents, agent);
            var all := After(room.log, lastRead);
            var page := all[..Min(EffectiveLimit(limit), |all|)];
            var out := OutcomeOf(room.log, room.agents, req);
            && out.Returned? && out.events == page
            && Apply(room, req).log == room.log
            && LastRead(Apply(room, req).agents, agent) == Max(lastRead, MaxSeq(page))
  {
    var req := DefaultRead(agent, role, limit);
    assert RefusalOf(room.log, room.agents, req).None?;
    assert room.log + [] == room.log;
  }

  /** A page moves the cursor past exactly the events on it. */
  lemma PageMovesCursor(log: seq<Event>, cursor: nat, page: nat)
    requires Increasing(log)
    ensures var all := After(log, cursor);
            var more := all[..Min(page, |all|)];
            var next := Max(cursor, MaxSeq(more));
            && Passed(log, next) == Min(Passed(log, cursor) + page, |log|)
            && more == log[Passed(log, cursor)..Passed(log, next)]
  {
    hide After, MaxSeq;
    CursorSplits(log, cursor);
    var from := Passed(log, cursor);
    var n := Min(page, |log| - from);
    hide Passed;
    TakeOfDrop(log, from, n);
    if n > 0 {
      PassedAt(log, from + n);
      MaxSeqOfSlice(log, from, from + n);
    } else {
      EmptyPageKeepsCursor(cursor);
    }
  }

  lemma EmptyPageKeepsCursor(cursor: nat)
    ensures Max(cursor, MaxSeq([])) == cursor
  {
  }

  lemma TakeOfDrop<T>(s: seq<T>, from: nat, n: nat)
    requires from + n <= |s|
    ensures s[from..][..n] == s[from..from + n]
  {
  }

  lemma MaxSeqOfSlice(log: seq<Event>, from: nat, to: nat)
    requires Increasing(log) && from < to <= |log|
    ensures MaxSeq(log[from..to]) == log[to - 1].seqNo
  {
    MaxSeqIsLast(log[from..to]);
  }

  /** Where `k` pages of `page` events end, counted from `from`. */
  function PagesEnd(from: nat, k: nat, page: nat): nat {
    from + k * page
  }

  lemma PagesEndNext(from: nat, k: nat, page: nat)
    ensures PagesEnd(from, k + 1, page) == PagesEnd(from, k, page) + page
  {
  }

  /**
   * Repeated reads page through the unread log in order, without repeating or skipping an event:
   * `k` reads of page size `n` pass, and return, exactly the next `k * n` events.
   */
  lemma {:induction false} ReadsPageThroughLog(room: Room, agent: string, role: string, limit: Option<JsNumber>, k: nat)
    requires room.log != [] && Increasing(room.log)
    ensures var (r, got) := Drain(room, DefaultRead(agent, role, limit), k);
            var from := Passed(room.log, LastRead(room.agents, agent));
            ReadUpTo(room.log, agent, from, Min(PagesEnd(from, k, EffectiveLimit(limit)), |room.log|), r, got)
  {
    var from, page := Passed(room.log, LastRead(room.agents, agent)), EffectiveLimit(limit);
    if k > 0 {
      hide OutcomeOf, Apply, ReadUpTo, PagesEnd, EffectiveLimit, Increasing, Passed, LastRead;
      ReadsPageThroughLog(room, agent, role, limit, k - 1);
      var (r, got) := Drain(room, DefaultRead(agent, role, limit), k - 1);
      PagesEndNext(from, k - 1, page);
      ReadOnePageMore(room.log, agent, role, limit, from, Min(PagesEnd(from, k - 1, page), |room.log|), r, got);
    }
  }

  /** `got` is the stretch of the log from `from` to `to`, and the agent's cursor in `r` stands behind it. */
  ghost predicate ReadUpTo(log: seq<Event>, agent: string, from: nat, to: nat, r: Room, got: seq<Event>) {
    && r.log == log
    && Passed(log, LastRead(r.agents, agent)) == to
    && from <= to <= |log| && got == log[from..to]
  }

  lemma ReadOnePageMore(log: seq<Event>, agent: string, role: string, limit: Option<JsNumber>,
                        from: nat, mid: nat, r: Room, got: seq<Event>)
    requires log != [] && Increasing(log) && ReadUpTo(log, agent, from, mid, r, got)
    ensures var out := OutcomeOf(r.log, r.agents, DefaultRead(agent, role, limit));
            var to := Min(mid + EffectiveLimit(limit), |log|);
            && out.Returned?
            && ReadUpTo(log, agent, from, to, Apply(r, DefaultRead(agent, role, limit)), got + out.events)
  {
    hide OutcomeOf, Apply, Increasing, After, Passed, MaxSeq, LastRead, EffectiveLimit;
    DefaultReadTurnsPage(r, agent, role, limit);
    PageMovesCursor(log, LastRead(r.agents, agent), EffectiveLimit(limit));
    SlicesJoin(log, from, mid, Min(mid + EffectiveLimit(limit), |log|));
  }

  lemma SlicesJoin<T>(s: seq<T>, from: nat, mid: nat, to: nat)
    requires from <= mid <= to <= |s|
    ensures s[from..mid] + s[mid..to] == s[from..to]
  {
  }

  /** With nothing new in the log, enough reads of any page size always let the job end. */
  lemma ReadsReachAcceptance(room: Room, agent: string, role: string, limit: Option<JsNumber>, k: nat, jobId: string)
    requires room.log != [] && Increasing(room.log) && !Blank(jobId)
    requires PagesEnd(Passed(room.log, LastRead(room.agents, agent)), k, EffectiveLimit(limit)) >= |room.log|
    ensures var r := Drain(room, DefaultRead(agent, role, limit), k).0;
            OutcomeOf(r.log, r.agents, Request(agent, role, FinishJob(jobId, false))) == Appended(MaxSeq(room.log) + 1)
  {
    ReadsPageThroughLog(room, agent, role, limit, k);
    var r := Drain(room, DefaultRead(agent, role, limit), k).0;
    CursorSplits(room.log, LastRead(r.agents, agent));
    NothingAfterNothingUnread(room.log, LastRead(r.agents, agent), agent);
    FinishIsAccepted(r, agent, role, jobId);
  }

  lemma FinishIsAccepted(room: Room, agent: string, role: string, jobId: string)
    requires room.log != [] && !Blank(jobId) && UnreadFor(room.log, LastRead(room.agents, agent), agent) == []
    ensures OutcomeOf(room.log, room.agents, Request(agent, role, FinishJob(jobId, false))) == Appended(MaxSeq(room.log) + 1)
  {
  }

  lemma {:induction false} NothingAfterNothingUnread(log: seq<Event>, cursor: nat, agent: string)
    requires After(log, cursor) == []
    ensures UnreadFor(log, cursor, agent) == []
  {
    if log != [] {
      NothingAfterNothingUnread(log[..|log| - 1], cursor, agent);
    }
  }
}
