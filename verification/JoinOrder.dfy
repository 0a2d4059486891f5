/** When exactly a join that replays a log sorted by creation time goes through. */
module JoinOrder {
  import opened Common
  import opened Membership
  import opened Agreement
  import opened LogReplay
  import opened RecordedEvents

  /******* In recording order *******/

  lemma {:induction false} SortingOrdered(events: seq<Event>)
    requires Ordered(events)
    ensures Sorted(events) == events
  {
    if events != [] {
      var n := |events| - 1;
      SortingOrdered(events[..n]);
      assert events == events[..n] + [events[n]];
    }
  }

  /** A log listed as it was recorded needs only times that do not decrease: the sort is stable. */
  lemma JoinInRecordingOrder(c: Scheme, federationId: string, offers: seq<Event>)
    requires Ordered(Log(c, Empty(federationId), offers))
    ensures Replay(c, Empty(federationId), Sorted(Log(c, Empty(federationId), offers))) == Ok(Run(c, federationId, offers))
  {
    var log := Log(c, Empty(federationId), offers);
    SortingOrdered(log);
    LogReplaysRun(c, Empty(federationId), offers);
    AppliedLogReplays(c, Empty(federationId), log);
  }

  /******* In any order *******/

  ghost predicate Before(p: seq<Event>, i: nat, kind: Kind, id: string)
    requires i <= |p|
  {
    exists j: nat :: j < i && About(p[j], kind, id)
  }

  /** What event `i` of a list needs of those before it: the first one is a member enrolling itself, any
      other comes after its issuer's enrolment and before its issuer's revocation; updates and
      revocations come after their subject's enrolment, enrolments and updates before its revocation. */
  ghost predicate ReadyAt(p: seq<Event>, i: nat)
    requires i < |p|
  {
    var e := p[i];
    var issuer, id := e.body.issuer, e.body.subject.nodeId;
    && (if i == 0 then e.body.kind == Joined && issuer == id
        else Before(p, i, Joined, issuer) && !Before(p, i, Revoked, issuer))
    && (e.body.kind != Joined ==> Before(p, i, Joined, id))
    && (e.body.kind != Revoked ==> !Before(p, i, Revoked, id))
  }

  lemma {:induction false} AppliedIsOwnLog(c: Scheme, s: State, p: seq<Event>)
    requires AllApplied(c, s, p)
    ensures Log(c, s, p) == p
  {
    hide Apply;
    if p != [] {
      var n := |p| - 1;
      AppliedIsOwnLog(c, s, p[..n]);
      assert p == p[..n] + [p[n]];
    }
  }

  /** A list of applied events is what its run records. */
  lemma AppliedListRecorded(c: Scheme, federationId: string, p: seq<Event>)
    requires AllApplied(c, Empty(federationId), p)
    ensures forall e :: Recorded(Run(c, federationId, p).events, e) <==> e in p
  {
    AppliedIsOwnLog(c, Empty(federationId), p);
    LogListsRecorded(c, federationId, p);
  }

  /** `p` lists the events of the run's log. */
  ghost predicate Lists(c: Scheme, federationId: string, offers: seq<Event>, p: seq<Event>) {
    multiset(p) == multiset(Log(c, Empty(federationId), offers))
  }

  lemma ListedIsRecorded(c: Scheme, federationId: string, offers: seq<Event>, p: seq<Event>)
    requires Lists(c, federationId, offers, p)
    ensures forall e :: e in p <==> Recorded(Run(c, federationId, offers).events, e)
    ensures DistinctEventIds(p)
  {
    var log := Log(c, Empty(federationId), offers);
    LogListsRecorded(c, federationId, offers);
    assert forall e :: e in p <==> e in multiset(p);
    assert forall e :: e in log <==> e in multiset(log);
    DistinctIdsPermute(p, log);
  }

  lemma DistinctIdsPermute(p: seq<Event>, log: seq<Event>)
    requires multiset(p) == multiset(log) && DistinctEventIds(log)
    ensures DistinctEventIds(p)
  {
    forall i, j | 0 <= i < j < |p| ensures p[i].eventId != p[j].eventId {
      if p[i].eventId == p[j].eventId {
        assert p[i] in multiset(log) && p[j] in multiset(log);
        var a :| 0 <= a < |log| && log[a] == p[i];
        var b :| 0 <= b < |log| && log[b] == p[j];
        assert a == b;
        TwiceIsTwo(p, i, j);
        OnceIsOne(log, a);
      }
    }
  }

  lemma TwiceIsTwo(p: seq<Event>, i: nat, j: nat)
    requires i < j < |p| && p[i] == p[j]
    ensures multiset(p)[p[i]] >= 2
  {
    assert p == p[..i] + [p[i]] + p[i + 1..j] + [p[j]] + p[j + 1..];
  }

  lemma OnceIsOne(log: seq<Event>, a: nat)
    requires a < |log| && DistinctEventIds(log)
    ensures multiset(log)[log[a]] <= 1
  {
    assert log == log[..a] + [log[a]] + log[a + 1..];
    assert log[a] !in log[..a] && log[a] !in log[a + 1..];
  }

  /** Of `id`, the view knows what the first `n` events say. */
  ghost predicate KnowsFront(u: State, p: seq<Event>, n: nat, id: string)
    requires n <= |p|
  {
    && (id in u.nodes <==> Before(p, n, Joined, id))
    && (id in u.nodes ==> (u.nodes[id].revoked <==> Before(p, n, Revoked, id)))
    && (Before(p, n, Revoked, id) ==> id in u.nodes)
    && (u.nodes == map[] <==> n == 0)
  }

  /** What a replayed front of the list knows is what the list says comes before. */
  lemma FrontView(c: Scheme, federationId: string, p: seq<Event>, n: nat, id: string)
    requires n <= |p| && AllApplied(c, Empty(federationId), p[..n])
    ensures KnowsFront(Run(c, federationId, p[..n]), p, n, id)
  {
    var u, front := Run(c, federationId, p[..n]), p[..n];
    AppliedListRecorded(c, federationId, front);
    RunKeepsView(c, federationId, front);
    RunKeepsVouched(c, federationId, front);
    assert ViewFollowsLogAt(u, id);
    hide Run, AllApplied;
    BeforeIsRecorded(u, p, n, Joined, id);
    BeforeIsRecorded(u, p, n, Revoked, id);
    if n > 0 {
      assert Recorded(u.events, front[0]);
    }
    if k :| k in u.events {
      assert Recorded(u.events, u.events[k]);
    }
  }

  lemma BeforeIsRecorded(u: State, p: seq<Event>, n: nat, kind: Kind, id: string)
    requires n <= |p| && forall e :: Recorded(u.events, e) <==> e in p[..n]
    ensures Before(p, n, kind, id) <==> exists e :: Recorded(u.events, e) && About(e, kind, id)
  {
    if Before(p, n, kind, id) {
      var j: nat :| j < n && About(p[j], kind, id);
      assert p[..n][j] == p[j];
    }
    if e :| Recorded(u.events, e) && About(e, kind, id) {
      var j: nat :| j < n && p[..n][j] == e;
      assert p[j] == e;
    }
  }

  /** The keys a replayed front knows are the exporter's. */
  lemma FrontKeys(c: Scheme, federationId: string, offers: seq<Event>, p: seq<Event>, n: nat, id: string)
    requires Lists(c, federationId, offers, p) && n <= |p| && AllApplied(c, Empty(federationId), p[..n])
    ensures SameKey(Run(c, federationId, offers), Run(c, federationId, p[..n]), id)
  {
    var s, u := Run(c, federationId, offers), Run(c, federationId, p[..n]);
    ListedIsRecorded(c, federationId, offers, p);
    AppliedListRecorded(c, federationId, p[..n]);
    RunKeepsView(c, federationId, offers);
    RunKeepsView(c, federationId, p[..n]);
    assert ViewFollowsLogAt(s, id) && ViewFollowsLogAt(u, id);
    hide Run, AllApplied, Lists;
    if id in u.nodes {
      assert HasKey(s.events, id, u.nodes[id].publicKey);
    }
  }

  /** Nothing in a replayed front of a sorted list outdates what comes next. */
  lemma FrontIsNotNewer(c: Scheme, federationId: string, p: seq<Event>, n: nat)
    requires Ordered(p) && n < |p| && AllApplied(c, Empty(federationId), p[..n])
    ensures !Stale(Run(c, federationId, p[..n]), p[n])
  {
    var u, id := Run(c, federationId, p[..n]), p[n].body.subject.nodeId;
    AppliedListRecorded(c, federationId, p[..n]);
    RunKeepsUpdateTime(c, federationId, p[..n], id);
    hide Run, AllApplied;
    if id in u.nodes {
      var x :| Recorded(u.events, x) && x.body.kind != Revoked && x.body.subject.nodeId == id
               && x.body.createdAt == u.nodes[id].updatedAt;
      var j: nat :| j < n && p[..n][j] == x;
      assert p[j] == x;
    }
  }

  lemma FrontIsNew(c: Scheme, federationId: string, p: seq<Event>, n: nat)
    requires DistinctEventIds(p) && n < |p| && AllApplied(c, Empty(federationId), p[..n])
    ensures p[n].eventId !in Run(c, federationId, p[..n]).events
  {
    var u := Run(c, federationId, p[..n]);
    AppliedListRecorded(c, federationId, p[..n]);
    RunKeepsVouched(c, federationId, p[..n]);
    hide Run, AllApplied;
    assert forall k :: k in u.events ==> Recorded(u.events, u.events[k]);
    assert forall x :: x in p[..n] ==> x.eventId != p[n].eventId;
  }

  lemma ReadyIsInPlace(u: State, p: seq<Event>, n: nat)
    requires n < |p| && KnowsFront(u, p, n, p[n].body.issuer) && KnowsFront(u, p, n, p[n].body.subject.nodeId)
    ensures InPlace(u, p[n]) <==> ReadyAt(p, n)
  {
    assert n == 0 ==> !Before(p, n, Joined, p[n].body.issuer) && !Before(p, n, Revoked, p[n].body.subject.nodeId);
    hide Before;
  }

  /** The next event of a sorted list is applied exactly when it is ready, and never just ignored. */
  lemma NextIsReady(c: Scheme, federationId: string, offers: seq<Event>, p: seq<Event>, n: nat)
    requires Lists(c, federationId, offers, p) && Ordered(p) && n < |p| && AllApplied(c, Empty(federationId), p[..n])
    ensures Apply(c, Run(c, federationId, p[..n]), p[n]).Applied? <==> ReadyAt(p, n)
    ensures !Apply(c, Run(c, federationId, p[..n]), p[n]).Ignored?
  {
    var s, u, e := Run(c, federationId, offers), Run(c, federationId, p[..n]), p[n];
    ListedIsRecorded(c, federationId, offers, p);
    assert e in p;
    RunKeepsVouched(c, federationId, offers);
    RunKeepsVouched(c, federationId, p[..n]);
    assert Vouched(c, s, e);
    FrontIsNew(c, federationId, p, n);
    FrontIsNotNewer(c, federationId, p, n);
    FrontKeys(c, federationId, offers, p, n, e.body.issuer);
    FrontKeys(c, federationId, offers, p, n, e.body.subject.nodeId);
    FrontView(c, federationId, p, n, e.body.issuer);
    FrontView(c, federationId, p, n, e.body.subject.nodeId);
    hide *;
    ReadyIsInPlace(u, p, n);
    AppliedElsewhere(c, s, u, e);
  }

  lemma {:induction false} ReplayIsReady(c: Scheme, federationId: string, offers: seq<Event>, p: seq<Event>, n: nat)
    requires Lists(c, federationId, offers, p) && Ordered(p) && n <= |p|
    ensures Replay(c, Empty(federationId), p[..n]).Ok? <==> forall i: nat :: i < n ==> ReadyAt(p, i)
    ensures Replay(c, Empty(federationId), p[..n]).Ok? ==>
              AllApplied(c, Empty(federationId), p[..n])
              && Replay(c, Empty(federationId), p[..n]) == Ok(Run(c, federationId, p[..n]))
  {
    hide Apply, ReadyAt, Lists, Ordered;
    if n > 0 {
      ReplayIsReady(c, federationId, offers, p, n - 1);
      assert p[..n][..n - 1] == p[..n - 1] && p[..n][n - 1] == p[n - 1];
      if Replay(c, Empty(federationId), p[..n - 1]).Ok? {
        NextIsReady(c, federationId, offers, p, n - 1);
        if ReadyAt(p, n - 1) {
          AppliedIsNext(c, Run(c, federationId, p[..n - 1]), p[n - 1]);
        }
      }
    }
  }

  /** A join goes through, from whatever listing of the exporter's log, if and only if in the sorted list
      every event is ready; it then holds exactly the exporter's events, each of them applied. */
  lemma JoinSucceedsExactly(c: Scheme, federationId: string, offers: seq<Event>, listing: seq<Event>)
    requires Lists(c, federationId, offers, listing)
    ensures var p := Sorted(listing);
            && (Replay(c, Empty(federationId), p).Ok? <==> forall i: nat :: i < |p| ==> ReadyAt(p, i))
            && (Replay(c, Empty(federationId), p).Ok? ==>
                  && AllApplied(c, Empty(federationId), p)
                  && Replay(c, Empty(federationId), p).value.events == Run(c, federationId, offers).events)
  {
    var p := Sorted(listing);
    SortedIsSorted(listing);
    ReplayIsReady(c, federationId, offers, p, |p|);
    assert p[..|p|] == p;
    if Replay(c, Empty(federationId), p).Ok? {
      ListedIsRecorded(c, federationId, offers, p);
      AppliedListRecorded(c, federationId, p);
      RunKeepsVouched(c, federationId, offers);
      RunKeepsVouched(c, federationId, p);
      SameRecorded(c, Run(c, federationId, p), Run(c, federationId, offers));
    }
  }

  lemma SameRecorded(c: Scheme, s: State, t: State)
    requires LogVouched(c, s) && LogVouched(c, t)
    requires forall e :: Recorded(s.events, e) <==> Recorded(t.events, e)
    ensures s.events == t.events
  {
    forall k ensures k in s.events <==> k in t.events
             ensures k in s.events ==> s.events[k] == t.events[k]
    {
      if k in s.events { assert Recorded(s.events, s.events[k]); }
      if k in t.events { assert Recorded(t.events, t.events[k]); }
    }
  }

  /** A clock that runs behind is enough to break the join, with no two times equal: it fails from every
      listing of a log that has an event older than every enrolment of its issuer. */
  lemma LaggingClockBreaksJoin(c: Scheme, federationId: string, offers: seq<Event>, listing: seq<Event>, e: Event)
    requires Lists(c, federationId, offers, listing) && e in listing
    requires forall x :: x in listing && About(x, Joined, e.body.issuer) ==> e.body.createdAt < x.body.createdAt
    ensures Replay(c, Empty(federationId), Sorted(listing)).Error?
  {
    hide Sorted, Replay, Lists, Run, ReadyAt;
    var p := Sorted(listing);
    JoinSucceedsExactly(c, federationId, offers, listing);
    SortedIsSorted(listing);
    assert e in multiset(p);
    var i: nat :| i < |p| && p[i] == e;
    forall j: nat | j <= i ensures !About(p[j], Joined, e.body.issuer) {
      assert p[j] in multiset(listing);
    }
    UnenrolledIsNotReady(p, i);
  }

  lemma UnenrolledIsNotReady(p: seq<Event>, i: nat)
    requires i < |p| && forall j: nat :: j <= i ==> !About(p[j], Joined, p[i].body.issuer)
    ensures !ReadyAt(p, i)
  {
  }
}
