/** What the ledger queries return, on any ledger whatever its file says. */
module LedgerQueries {
  import opened Js
  import opened Ledger
  import opened LedgerRuns

  lemma {:induction false} BeforeIsOrder(a: string, b: string)
    ensures !(Before(a, b) && Before(b, a))
    ensures Before(a, b) || Before(b, a) || a == b
  {
    if a != [] && b != [] && a[0] == b[0] {
      BeforeIsOrder(a[1..], b[1..]);
      assert a == [a[0]] + a[1..] && b == [b[0]] + b[1..];
    }
  }

  lemma {:induction false} BeforeChains(a: string, b: string, c: string)
    requires Before(a, b) && Before(b, c)
    ensures Before(a, c)
  {
    if a != [] && b[0] == a[0] && b[0] == c[0] {
      BeforeChains(a[1..], b[1..], c[1..]);
    }
  }

  ghost predicate SortedByTime(events: seq<Event>) {
    forall i, j :: 0 <= i < j < |events| ==> !Before(events[j].recordedAt, events[i].recordedAt)
  }

  /** The events recorded at one moment, in order. */
  function AtTime(events: seq<Event>, t: string): seq<Event> {
    if events == [] then []
    else
      var e := events[|events| - 1];
      AtTime(events[..|events| - 1], t) + if e.recordedAt == t then [e] else []
  }

  lemma AtTimeOneMore(events: seq<Event>, e: Event, t: string)
    ensures AtTime(events + [e], t) == AtTime(events, t) + if e.recordedAt == t then [e] else []
  {
    assert (events + [e])[..|events|] == events;
  }

  lemma {:induction false} InsertMembers(sorted: seq<Event>, e: Event)
    ensures multiset(Insert(sorted, e)) == multiset(sorted) + multiset{e}
  {
    if sorted != [] && Before(e.recordedAt, sorted[|sorted| - 1].recordedAt) {
      InsertMembers(sorted[..|sorted| - 1], e);
      assert sorted == sorted[..|sorted| - 1] + [sorted[|sorted| - 1]];
    }
  }

  lemma InsertOnlyAdds(sorted: seq<Event>, e: Event, x: Event)
    requires x in Insert(sorted, e)
    ensures x in sorted || x == e
  {
    InsertMembers(sorted, e);
    assert x in multiset(Insert(sorted, e));
    hide Insert;
  }

  lemma {:induction false} InsertSorts(sorted: seq<Event>, e: Event)
    requires SortedByTime(sorted)
    ensures SortedByTime(Insert(sorted, e))
  {
    var n := |sorted| - 1;
    if sorted != [] && Before(e.recordedAt, sorted[n].recordedAt) {
      var front, last := sorted[..n], sorted[n];
      InsertSorts(front, e);
      forall i | 0 <= i < |Insert(front, e)|
        ensures !Before(last.recordedAt, Insert(front, e)[i].recordedAt)
      {
        InsertOnlyAdds(front, e, Insert(front, e)[i]);
        BeforeIsOrder(e.recordedAt, last.recordedAt);
      }
    } else {
      forall i | 0 <= i < |sorted|
        ensures !Before(e.recordedAt, sorted[i].recordedAt)
      {
        if Before(e.recordedAt, sorted[i].recordedAt) {
          BeforeIsOrder(sorted[i].recordedAt, sorted[n].recordedAt);
          if sorted[i].recordedAt != sorted[n].recordedAt {
            BeforeChains(e.recordedAt, sorted[i].recordedAt, sorted[n].recordedAt);
          }
        }
      }
    }
  }

  lemma LaterLeavesMoment(inserted: seq<Event>, front: seq<Event>, e: Event, last: Event, t: string)
    requires AtTime(inserted, t) == AtTime(front, t) + AtTime([e], t) && e.recordedAt != last.recordedAt
    ensures AtTime(inserted + [last], t) == AtTime(front + [last], t) + AtTime([e], t)
  {
    AtTimeOneMore(inserted, last, t);
    AtTimeOneMore(front, last, t);
    AtTimeOfOne(e, t);
    hide AtTime;
  }

  /** Insertion keeps the order of the events recorded at one moment, the new one last. */
  lemma {:induction false} InsertIsStable(sorted: seq<Event>, e: Event, t: string)
    ensures AtTime(Insert(sorted, e), t) == AtTime(sorted, t) + AtTime([e], t)
  {
    hide AtTime, Before;
    var n := |sorted| - 1;
    if sorted != [] && Before(e.recordedAt, sorted[n].recordedAt) {
      var front, last := sorted[..n], sorted[n];
      InsertIsStable(front, e, t);
      BeforeIsOrder(e.recordedAt, last.recordedAt);
      LaterLeavesMoment(Insert(front, e), front, e, last, t);
      assert front + [last] == sorted;
    } else {
      AtTimeOneMore(sorted, e, t);
      AtTimeOfOne(e, t);
    }
  }

  lemma AtTimeOfOne(e: Event, t: string)
    ensures AtTime([e], t) == if e.recordedAt == t then [e] else []
  {
  }

  /** The events of the ledger the query is about, in ledger order. */
  function Qualifying(events: seq<Event>, l: Ledger, kind: Kind): seq<Event> {
    if events == [] then []
    else
      var e := events[|events| - 1];
      Qualifying(events[..|events| - 1], l, kind) + if IsCurrent(l, e, kind) then [e] else []
  }

  lemma QualifyingOneMore(l: Ledger, kind: Kind, n: nat)
    requires n < |l.events|
    ensures Qualifying(l.events[..n + 1], l, kind) == Qualifying(l.events[..n], l, kind) + if IsCurrent(l, l.events[n], kind) then [l.events[n]] else []
  {
    assert l.events[..n + 1][..n] == l.events[..n];
  }

  lemma {:induction false} CurrentIsSorted(l: Ledger, kind: Kind, n: nat)
    requires n <= |l.events|
    ensures SortedByTime(CurrentUpTo(l, kind, n))
  {
    if n > 0 {
      CurrentIsSorted(l, kind, n - 1);
      InsertSorts(CurrentUpTo(l, kind, n - 1), l.events[n - 1]);
      hide Insert, SortedByTime, IsCurrent;
    }
  }

  lemma MembersStep(c: seq<Event>, q: seq<Event>, e: Event, c': seq<Event>, q': seq<Event>, taken: bool)
    requires multiset(c) == multiset(q)
    requires if taken then multiset(c') == multiset(c) + multiset{e} && q' == q + [e] else c' == c && q' == q + []
    ensures multiset(c') == multiset(q')
  {
  }

  lemma {:induction false} CurrentHasTheQualifying(l: Ledger, kind: Kind, n: nat)
    requires n <= |l.events|
    ensures multiset(CurrentUpTo(l, kind, n)) == multiset(Qualifying(l.events[..n], l, kind))
  {
    if n > 0 {
      var e := l.events[n - 1];
      CurrentHasTheQualifying(l, kind, n - 1);
      InsertMembers(CurrentUpTo(l, kind, n - 1), e);
      QualifyingOneMore(l, kind, n - 1);
      hide Insert, IsCurrent, Qualifying;
      MembersStep(CurrentUpTo(l, kind, n - 1), Qualifying(l.events[..n - 1], l, kind), e,
                  CurrentUpTo(l, kind, n), Qualifying(l.events[..n], l, kind), IsCurrent(l, e, kind));
    }
  }

  lemma {:induction false} CurrentIsStable(l: Ledger, kind: Kind, n: nat, t: string)
    requires n <= |l.events|
    ensures AtTime(CurrentUpTo(l, kind, n), t) == AtTime(Qualifying(l.events[..n], l, kind), t)
  {
    if n > 0 {
      hide Insert, IsCurrent, Qualifying, AtTime;
      var e := l.events[n - 1];
      CurrentIsStable(l, kind, n - 1, t);
      InsertIsStable(CurrentUpTo(l, kind, n - 1), e, t);
      QualifyingOneMore(l, kind, n - 1);
      AtTimeOneMore(Qualifying(l.events[..n - 1], l, kind), e, t);
      AtTimeOfOne(e, t);
      assert Qualifying(l.events[..n - 1], l, kind) + [] == Qualifying(l.events[..n - 1], l, kind);
    }
  }

  /** The current events of a kind: exactly the qualifying events, each as often as it stands in the ledger, sorted by time, ties in ledger order. */
  lemma FindCurrentIsExact(l: Ledger, kind: Kind, t: string)
    ensures SortedByTime(FindCurrent(l, kind))
    ensures multiset(FindCurrent(l, kind)) == multiset(Qualifying(l.events, l, kind))
    ensures AtTime(FindCurrent(l, kind), t) == AtTime(Qualifying(l.events, l, kind), t)
  {
    var n := |l.events|;
    CurrentIsSorted(l, kind, n);
    CurrentHasTheQualifying(l, kind, n);
    CurrentIsStable(l, kind, n, t);
    assert l.events[..n] == l.events;
    hide CurrentUpTo, Qualifying, AtTime, SortedByTime;
  }

  lemma {:induction false} KeepSpec(events: seq<Event>)
    ensures forall e :: e in KeepAuthoritative(events) <==> e in events && Authoritative(e)
    ensures SortedByTime(events) ==> SortedByTime(KeepAuthoritative(events))
  {
    if events != [] {
      var front, last := events[..|events| - 1], events[|events| - 1];
      KeepSpec(front);
      assert events == front + [last];
      forall i | 0 <= i < |KeepAuthoritative(front)| && SortedByTime(events)
        ensures !Before(last.recordedAt, KeepAuthoritative(front)[i].recordedAt)
      {
        assert KeepAuthoritative(front)[i] in front;
      }
      hide Authoritative, Before;
    }
  }

  lemma {:induction false} KeepCounts(events: seq<Event>, e: Event)
    ensures multiset(KeepAuthoritative(events))[e] == if Authoritative(e) then multiset(events)[e] else 0
  {
    hide Authoritative;
    if events != [] {
      KeepCounts(events[..|events| - 1], e);
      assert events == events[..|events| - 1] + [events[|events| - 1]];
    }
  }

  lemma {:induction false} QualifyingCounts(events: seq<Event>, l: Ledger, kind: Kind, e: Event)
    ensures multiset(Qualifying(events, l, kind))[e] == if IsCurrent(l, e, kind) then multiset(events)[e] else 0
  {
    hide IsCurrent;
    if events != [] {
      QualifyingCounts(events[..|events| - 1], l, kind, e);
      assert events == events[..|events| - 1] + [events[|events| - 1]];
    }
  }

  /**
   * The accepted-current query returns, in time order, exactly the accepted events of the ledger's own run and the
   * asked kind that are not free-form imports, each as often as it stands in the ledger, on every
   * ledger: also one edited by hand, with duplicates, foreign runs or accepted free-form imports in it.
   */
  lemma FindAcceptedIsExact(l: Ledger, kind: Kind, e: Event)
    ensures SortedByTime(FindAccepted(l, kind))
    ensures multiset(FindAccepted(l, kind))[e]
            == if e.kind == kind && e.runId == l.runId && e.status.Accepted? && !IsFreeForm(e) then multiset(l.events)[e] else 0
  {
    FindCurrentIsExact(l, kind, "");
    KeepSpec(FindCurrent(l, kind));
    KeepCounts(FindCurrent(l, kind), e);
    QualifyingCounts(l.events, l, kind, e);
    hide FindCurrent, Qualifying, SortedByTime, KeepAuthoritative, IsFreeForm;
  }

  // ---------- The loops ----------

  method CountByKind(events: seq<Event>, kind: Kind) returns (n: nat)
    ensures n == CountKind(events, kind)
  {
    n := 0;
    for i := 0 to |events|
      invariant n == CountKind(events[..i], kind)
    {
      assert events[..i + 1][..i] == events[..i];
      if events[i].kind == kind {
        n := n + 1;
      }
    }
    assert events[..|events|] == events;
  }

  method AppendEvent(l: Ledger, i: AppendInput, now: string) returns (r: Result<Ledger, Error>)
    ensures r == Append(l, i, now)
  {
    hide NewEvent, IsFreeForm, Trim;
    if i.runId != l.runId {
      return Err(RunMismatch);
    }
    if Blank(now) {
      return Err(BadTime);
    }
    if i.contextRun != i.runId {
      return Err(ContextMismatch);
    }
    if i.recordedAt.Some? && Blank(i.recordedAt.value) {
      return Err(BadTime);
    }
    var e := NewEvent(l, i, now);
    if e.status.Accepted? && IsFreeForm(e) {
      return Err(FreeFormAccepted);
    }
    for k := 0 to |l.events|
      invariant forall j :: 0 <= j < k ==> l.events[j].id != e.id
    {
      if l.events[k].id == e.id {
        assert l.events[k] in l.events;
        return Err(DuplicateId);
      }
    }
    r := Ok(Ledger(l.runId, Trim(now), l.events + [e]));
  }

  /** One pass over the events; a second match breaks off, and the count decides. */
  method MarkEventStatus(l: Ledger, m: Mark) returns (r: Result<Ledger, Error>)
    ensures r == MarkStatus(l, m)
    ensures r.Ok? ==> exists k :: MarkedAt(l, m, r.value, k)
  {
    hide Trim, IsFreeForm, Marked, HasId, MarkedAt;
    var id := Trim(m.id);
    if id == "" {
      return Err(MissingId);
    }
    if Blank(m.now) {
      return Err(BadTime);
    }
    var next: seq<Event> := [];
    var matches := 0;
    ghost var first := FirstWith(l.events, id);
    ghost var target := if first < |l.events| then l.events[first := Marked(l.events[first], m)] else l.events;
    FirstMatch(l.events, id);
    hide FirstWith;
    var i := 0;
    while i < |l.events| && matches <= 1
      invariant 0 <= i <= |l.events| && 0 <= matches <= 2
      invariant matches == 0 <==> i <= first
      invariant matches <= 1 ==> next == target[..i]
      invariant matches >= 1 ==> !(m.status.Superseded? && Blank(m.supersededBy)) && !(m.status.Accepted? && IsFreeForm(l.events[first]))
      invariant matches == 1 ==> forall j :: first < j < i ==> l.events[j].id != id
      invariant matches == 2 ==> HasId(l.events[first + 1..], id)
    {
      var e := l.events[i];
      if e.id != id {
        next := next + [e];
      } else {
        matches := matches + 1;
        if matches == 1 {
          if m.status.Superseded? && Blank(m.supersededBy) {
            return Err(NeedsSupersededBy);
          }
          if m.status.Accepted? && IsFreeForm(e) {
            return Err(FreeFormAccepted);
          }
          next := next + [Marked(e, m)];
        } else {
          LaterMatch(l.events, first, i, id);
        }
      }
      i := i + 1;
    }
    if matches != 1 {
      return Err(NotExactlyOne);
    }
    assert target[..|l.events|] == target;
    NoLaterMatch(l.events, first, id);
    r := Ok(Ledger(l.runId, Trim(m.now), next));
    MarkChangesExactlyOne(l, m);
  }

  lemma LaterMatch(events: seq<Event>, first: nat, i: nat, id: string)
    requires first < i < |events| && events[i].id == id
    ensures HasId(events[first + 1..], id)
  {
    assert events[first + 1..][i - first - 1] == events[i];
  }

  lemma NoLaterMatch(events: seq<Event>, first: nat, id: string)
    requires first < |events| && forall j :: first < j < |events| ==> events[j].id != id
    ensures !HasId(events[first + 1..], id)
  {
  }

  lemma {:induction false} FirstMatch(events: seq<Event>, id: string)
    ensures var k := FirstWith(events, id); (k < |events| ==> events[k].id == id) && forall j :: 0 <= j < k ==> events[j].id != id
  {
    if events != [] && events[0].id != id {
      FirstMatch(events[1..], id);
    }
  }

  /** The latest current event of a kind, the first of those recorded at the same time. */
  method FindCurrentEvent(l: Ledger, kind: Kind) returns (best: Option<Event>)
    ensures best.None? <==> forall e :: e in l.events ==> !IsCurrent(l, e, kind)
    ensures best.Some? ==> (
        && best.value in l.events && IsCurrent(l, best.value, kind)
        && (forall e :: e in l.events && IsCurrent(l, e, kind) ==> !Before(best.value.recordedAt, e.recordedAt)))
  {
    best := None;
    for i := 0 to |l.events|
      invariant best.None? ==> forall j :: 0 <= j < i ==> !IsCurrent(l, l.events[j], kind)
      invariant best.Some? ==> (
          && best.value in l.events && IsCurrent(l, best.value, kind)
          && (forall j :: 0 <= j < i && IsCurrent(l, l.events[j], kind) ==> !Before(best.value.recordedAt, l.events[j].recordedAt)))
    {
      var e := l.events[i];
      if IsCurrent(l, e, kind) && (best.None? || Before(best.value.recordedAt, e.recordedAt)) {
        if best.Some? {
          LaterKeepsLatest(l, kind, i, best.value, e);
        }
        BeforeIsOrder(e.recordedAt, e.recordedAt);
        best := Some(e);
      }
    }
  }

  lemma LaterKeepsLatest(l: Ledger, kind: Kind, i: nat, best: Event, e: Event)
    requires i <= |l.events| && Before(best.recordedAt, e.recordedAt)
    requires forall j :: 0 <= j < i && IsCurrent(l, l.events[j], kind) ==> !Before(best.recordedAt, l.events[j].recordedAt)
    ensures forall j :: 0 <= j < i && IsCurrent(l, l.events[j], kind) ==> !Before(e.recordedAt, l.events[j].recordedAt)
  {
    forall j | 0 <= j < i && IsCurrent(l, l.events[j], kind) && Before(e.recordedAt, l.events[j].recordedAt)
      ensures false
    {
      BeforeChains(best.recordedAt, e.recordedAt, l.events[j].recordedAt);
    }
  }
}
