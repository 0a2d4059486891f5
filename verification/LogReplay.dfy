/**
 Handing a log to a joining node: the events a run recorded, the order a listing is
 sorted into, and when replaying it rebuilds the exporter's view.
 */
module LogReplay {
  import opened Common
  import opened Membership
  import opened Agreement

  /******* The log of a run *******/

  /** The events a run of offers records, in the order it records them. */
  function Log(c: Scheme, s: State, offers: seq<Event>): seq<Event> {
    if offers == [] then []
    else
      var n := |offers| - 1;
      Log(c, s, offers[..n]) + (if Apply(c, Offer(c, s, offers[..n]), offers[n]).Applied? then [offers[n]] else [])
  }

  /** Offered in this order, every event is applied. */
  ghost predicate AllApplied(c: Scheme, s: State, log: seq<Event>) {
    log == [] ||
    (AllApplied(c, s, log[..|log| - 1]) && Apply(c, Offer(c, s, log[..|log| - 1]), log[|log| - 1]).Applied?)
  }

  /** Rejected and stale offers leave no trace: the log alone replays the run. */
  lemma {:induction false} LogReplaysRun(c: Scheme, s: State, offers: seq<Event>)
    ensures Offer(c, s, Log(c, s, offers)) == Offer(c, s, offers)
    ensures AllApplied(c, s, Log(c, s, offers))
  {
    hide Apply, Next;
    if offers != [] {
      var n := |offers| - 1;
      LogReplaysRun(c, s, offers[..n]);
      var before := Log(c, s, offers[..n]);
      if Apply(c, Offer(c, s, offers[..n]), offers[n]).Applied? {
        OneMore(c, s, before, offers[n]);
        var after := before + [offers[n]];
        assert after[..|after| - 1] == before && after[|after| - 1] == offers[n];
        assert Log(c, s, offers) == after;
      } else {
        NotAppliedIsNoChange(c, Offer(c, s, offers[..n]), offers[n]);
        assert Log(c, s, offers) == before;
      }
    }
  }

  lemma NotAppliedIsNoChange(c: Scheme, s: State, e: Event)
    requires !Apply(c, s, e).Applied?
    ensures Next(c, s, e) == s
  {
  }

  ghost predicate DistinctEventIds(log: seq<Event>) {
    forall i, j :: 0 <= i < j < |log| ==> log[i].eventId != log[j].eventId
  }

  /** The log lists exactly the recorded events, each once, so any listing of the
      recorded events is a permutation of it. */
  lemma {:induction false} LogListsRecorded(c: Scheme, federationId: string, offers: seq<Event>)
    ensures var log := Log(c, Empty(federationId), offers);
            && (forall e :: e in log <==> Recorded(Run(c, federationId, offers).events, e))
            && DistinctEventIds(log)
  {
    hide Apply, Next;
    if offers != [] {
      var n := |offers| - 1;
      LogListsRecorded(c, federationId, offers[..n]);
      var s := Run(c, federationId, offers[..n]);
      if Apply(c, s, offers[n]).Applied? {
        AppliedIsNext(c, s, offers[n]);
        AppliedFacts(c, s, offers[n]);
        var before := Log(c, Empty(federationId), offers[..n]);
        forall i | 0 <= i < |before|
          ensures before[i].eventId != offers[n].eventId
        {
          assert before[i] in before;
        }
      } else {
        NotAppliedIsNoChange(c, s, offers[n]);
      }
    }
  }

  lemma AppliedIsNext(c: Scheme, s: State, e: Event)
    requires Apply(c, s, e).Applied?
    ensures Next(c, s, e) == Apply(c, s, e).state
  {
  }

  /******* Sorting a listing by creation time *******/

  function Insert(e: Event, sorted: seq<Event>): seq<Event> {
    if sorted == [] || sorted[|sorted| - 1].body.createdAt <= e.body.createdAt then sorted + [e]
    else Insert(e, sorted[..|sorted| - 1]) + [sorted[|sorted| - 1]]
  }

  /** A stable sort by `created_at`. */
  function Sorted(events: seq<Event>): seq<Event> {
    if events == [] then []
    else Insert(events[|events| - 1], Sorted(events[..|events| - 1]))
  }

  ghost predicate Ordered(events: seq<Event>) {
    forall i, j :: 0 <= i < j < |events| ==> events[i].body.createdAt <= events[j].body.createdAt
  }

  ghost predicate StrictlyIncreasing(events: seq<Event>) {
    forall i, j :: 0 <= i < j < |events| ==> events[i].body.createdAt < events[j].body.createdAt
  }

  lemma {:induction false} InsertKeepsOrder(e: Event, sorted: seq<Event>)
    requires Ordered(sorted)
    ensures Ordered(Insert(e, sorted)) && multiset(Insert(e, sorted)) == multiset(sorted) + multiset{e}
  {
    if sorted == [] || sorted[|sorted| - 1].body.createdAt <= e.body.createdAt {
    } else {
      var n := |sorted| - 1;
      InsertKeepsOrder(e, sorted[..n]);
      var shorter := Insert(e, sorted[..n]);
      assert Insert(e, sorted) == shorter + [sorted[n]];
      hide Insert;
      assert sorted == sorted[..n] + [sorted[n]];
      assert forall x :: x in sorted[..n] ==> x.body.createdAt <= sorted[n].body.createdAt;
      hide Ordered;
      OrderedWithLast(shorter, sorted[..n], e, sorted[n]);
    }
  }

  lemma OrderedWithLast(shorter: seq<Event>, rest: seq<Event>, e: Event, last: Event)
    requires Ordered(shorter) && multiset(shorter) == multiset(rest) + multiset{e}
    requires e.body.createdAt <= last.body.createdAt && forall x :: x in rest ==> x.body.createdAt <= last.body.createdAt
    ensures Ordered(shorter + [last])
  {
    forall i | 0 <= i < |shorter|
      ensures shorter[i].body.createdAt <= last.body.createdAt
    {
      assert shorter[i] in multiset(shorter);
      assert shorter[i] in rest || shorter[i] == e;
    }
  }

  lemma {:induction false} SortedIsSorted(events: seq<Event>)
    ensures Ordered(Sorted(events)) && multiset(Sorted(events)) == multiset(events)
  {
    if events != [] {
      var n := |events| - 1;
      SortedIsSorted(events[..n]);
      InsertKeepsOrder(events[n], Sorted(events[..n]));
      assert events == events[..n] + [events[n]];
    }
  }

  function AtTime(events: seq<Event>, time: int): seq<Event> {
    if events == [] then []
    else AtTime(events[..|events| - 1], time) + if events[|events| - 1].body.createdAt == time then [events[|events| - 1]] else []
  }

  lemma {:induction false} InsertGoesBehindItsTime(e: Event, sorted: seq<Event>, time: int)
    ensures AtTime(Insert(e, sorted), time) == AtTime(sorted, time) + if e.body.createdAt == time then [e] else []
  {
    var n := |sorted| - 1;
    if sorted == [] || sorted[n].body.createdAt <= e.body.createdAt {
      assert (sorted + [e])[..|sorted|] == sorted;
    } else {
      InsertGoesBehindItsTime(e, sorted[..n], time);
      var shorter := Insert(e, sorted[..n]);
      assert (shorter + [sorted[n]])[..|shorter|] == shorter;
    }
  }

  /** Events of one time stay in the order of the listing. */
  lemma {:induction false} SortKeepsOrderOfTime(events: seq<Event>, time: int)
    ensures AtTime(Sorted(events), time) == AtTime(events, time)
  {
    if events != [] {
      SortKeepsOrderOfTime(events[..|events| - 1], time);
      InsertGoesBehindItsTime(events[|events| - 1], Sorted(events[..|events| - 1]), time);
    }
  }

  /** A list with strictly increasing times is the only ordered arrangement of its events. */
  lemma {:induction false} OneOrder(ordered: seq<Event>, log: seq<Event>)
    requires Ordered(ordered) && StrictlyIncreasing(log) && multiset(ordered) == multiset(log)
    ensures ordered == log
  {
    SameLength(ordered, log);
    if log != [] {
      var n := |log| - 1;
      SameLast(ordered, log);
      SameWithoutLast(ordered, log);
      OneOrder(ordered[..n], log[..n]);
      assert ordered == ordered[..n] + [ordered[n]] && log == log[..n] + [log[n]];
    }
  }

  lemma SameWithoutLast(a: seq<Event>, b: seq<Event>)
    requires multiset(a) == multiset(b) && |a| == |b| > 0 && a[|a| - 1] == b[|b| - 1]
    ensures multiset(a[..|a| - 1]) == multiset(b[..|b| - 1])
  {
    DropLast(a);
    DropLast(b);
  }

  lemma SameLength(a: seq<Event>, b: seq<Event>)
    requires multiset(a) == multiset(b)
    ensures |a| == |b|
  {
    assert |multiset(a)| == |a| && |multiset(b)| == |b|;
  }

  lemma DropLast(events: seq<Event>)
    requires events != []
    ensures multiset(events[..|events| - 1]) == multiset(events) - multiset{events[|events| - 1]}
  {
    assert events == events[..|events| - 1] + [events[|events| - 1]];
  }

  lemma SameLast(ordered: seq<Event>, log: seq<Event>)
    requires Ordered(ordered) && StrictlyIncreasing(log) && multiset(ordered) == multiset(log)
    requires |log| == |ordered| > 0
    ensures ordered[|ordered| - 1] == log[|log| - 1]
  {
    var n := |log| - 1;
    assert ordered[n] in multiset(log) && log[n] in multiset(ordered);
    var i :| 0 <= i < |log| && log[i] == ordered[n];
    var j :| 0 <= j < |ordered| && ordered[j] == log[n];
    assert ordered[j].body.createdAt <= ordered[n].body.createdAt;
  }

  /******* Joining *******/

  /** A joining node applies a listing and gives up at the first event it rejects. */
  function Replay(c: Scheme, s: State, events: seq<Event>): Result<State> {
    if events == [] then Ok(s)
    else
      var n := |events| - 1;
      match Replay(c, s, events[..n])
      case Error(reason) => Error(reason)
      case Ok(t) =>
        match Apply(c, t, events[n])
        case Rejected(reason) => Error(reason)
        case Ignored => Ok(t)
        case Applied(u) => Ok(u)
  }

  lemma ReplayOneMore(c: Scheme, s: State, events: seq<Event>)
    requires events != []
    ensures var n := |events| - 1;
            && (Replay(c, s, events).Ok? <==>
                  Replay(c, s, events[..n]).Ok? && !Apply(c, Replay(c, s, events[..n]).value, events[n]).Rejected?)
            && (Replay(c, s, events).Ok? ==> Replay(c, s, events).value == Next(c, Replay(c, s, events[..n]).value, events[n]))
  {
    hide Apply;
  }

  /** No event is refused when its turn comes. */
  ghost predicate NoneRefused(c: Scheme, s: State, events: seq<Event>) {
    forall i :: 0 <= i < |events| ==> !Apply(c, Offer(c, s, events[..i]), events[i]).Rejected?
  }

  lemma NoneRefusedOneMore(c: Scheme, s: State, events: seq<Event>)
    requires events != []
    ensures var n := |events| - 1;
            NoneRefused(c, s, events) <==> NoneRefused(c, s, events[..n]) && !Apply(c, Offer(c, s, events[..n]), events[n]).Rejected?
  {
    hide Apply, Offer;
    assert forall i :: 0 <= i < |events| - 1 ==> events[..|events| - 1][..i] == events[..i] && events[..|events| - 1][i] == events[i];
  }

  /** Replaying is offering, as long as no event is refused when its turn comes. */
  lemma {:induction false} ReplayIsOffering(c: Scheme, s: State, events: seq<Event>)
    ensures Replay(c, s, events).Ok? <==> NoneRefused(c, s, events)
    ensures Replay(c, s, events).Ok? ==> Replay(c, s, events).value == Offer(c, s, events)
  {
    assert events == [] ==> NoneRefused(c, s, events);
    hide Apply, Next, NoneRefused;
    if events != [] {
      ReplayIsOffering(c, s, events[..|events| - 1]);
      ReplayOneMore(c, s, events);
      NoneRefusedOneMore(c, s, events);
    }
  }

  lemma {:induction false} AppliedLogReplays(c: Scheme, s: State, log: seq<Event>)
    requires AllApplied(c, s, log)
    ensures Replay(c, s, log) == Ok(Offer(c, s, log))
  {
    hide Apply;
    if log != [] {
      var n := |log| - 1;
      AppliedLogReplays(c, s, log[..n]);
      AppliedIsNext(c, Offer(c, s, log[..n]), log[n]);
    }
  }

  /** Whatever order the exporter lists its events in, sorting by creation time and
      replaying from nothing accepts every one and rebuilds its state, provided the
      events it recorded carry strictly increasing times. */
  lemma JoinRebuildsView(c: Scheme, federationId: string, offers: seq<Event>, listing: seq<Event>)
    requires StrictlyIncreasing(Log(c, Empty(federationId), offers))
    requires multiset(listing) == multiset(Log(c, Empty(federationId), offers))
    ensures Replay(c, Empty(federationId), Sorted(listing)) == Ok(Run(c, federationId, offers))
    ensures AllApplied(c, Empty(federationId), Sorted(listing))
  {
    var log := Log(c, Empty(federationId), offers);
    SortedIsSorted(listing);
    OneOrder(Sorted(listing), log);
    LogReplaysRun(c, Empty(federationId), offers);
    AppliedLogReplays(c, Empty(federationId), log);
  }

  /** With equal times the sort keeps the listing's own order, and a server enrolled in the
      same second as its enroller can come first: the join then fails. */
  lemma EqualTimesCanBreakJoin(c: Scheme, federationId: string, a: Event, b: Event)
    requires Founding(c, federationId, a) && Enrolment(c, a, b) && a.eventId != b.eventId
    requires a.body.createdAt == b.body.createdAt
    ensures Log(c, Empty(federationId), [a, b]) == [a, b] && Ordered([a, b])
    ensures multiset([b, a]) == multiset([a, b]) && Replay(c, Empty(federationId), Sorted([b, a])).Error?
  {
    hide Apply, Next, Log, Sorted, Replay, Founding, Enrolment;
    EnrolmentNeedsEnroller(c, federationId, a, b);
    TwoEventLog(c, Empty(federationId), a, b);
    TwoEventListing(c, Empty(federationId), a, b);
    SameTwo(a, b);
  }

  lemma SameTwo(a: Event, b: Event)
    ensures multiset([b, a]) == multiset([a, b])
  {
  }

  lemma EnrolmentNeedsEnroller(c: Scheme, federationId: string, a: Event, b: Event)
    requires Founding(c, federationId, a) && Enrolment(c, a, b) && a.eventId != b.eventId
    ensures var empty := Empty(federationId);
            Apply(c, empty, a).Applied? && Apply(c, Next(c, empty, a), b).Applied? && Apply(c, empty, b).Rejected?
  {
  }

  lemma TwoEventLog(c: Scheme, s: State, a: Event, b: Event)
    requires Apply(c, s, a).Applied? && Apply(c, Next(c, s, a), b).Applied?
    ensures Log(c, s, [a, b]) == [a, b]
  {
    hide Apply, Next;
    OneMore(c, s, [], a);
    assert [] + [a] == [a] && [a, b][..1] == [a] && [a][..0] == [];
    assert Offer(c, s, []) == s && Log(c, s, []) == [];
    assert Log(c, s, [a]) == [a];
  }

  lemma TwoEventListing(c: Scheme, s: State, a: Event, b: Event)
    requires a.body.createdAt == b.body.createdAt && Apply(c, s, b).Rejected?
    ensures Replay(c, s, Sorted([b, a])).Error?
  {
    SortedTwo(a, b);
    hide Apply, Next, Sorted;
    assert [b, a][..1] == [b] && [b][..0] == [];
    assert Replay(c, s, []) == Ok(s);
    assert Replay(c, s, [b]).Error?;
  }

  lemma SortedTwo(a: Event, b: Event)
    requires a.body.createdAt == b.body.createdAt
    ensures Sorted([b, a]) == [b, a]
  {
    assert [b, a][..1] == [b] && [b][..0] == [];
    assert Sorted([b]) == [b];
  }
}
