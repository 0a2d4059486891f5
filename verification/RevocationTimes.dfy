/** When exactly a replica shows the revocation time its log records. */
module RevocationTimes {
  import opened Membership
  import opened Agreement
  import opened LogReplay

  /** The revocation time brought by the last enrolment or update of `id` in a log. */
  function LastCarried(log: seq<Event>, id: string): int {
    if log == [] then 0
    else
      var e := log[|log| - 1];
      if e.body.subject.nodeId == id && e.body.kind != Revoked then e.body.subject.carried
      else LastCarried(log[..|log| - 1], id)
  }

  /** Some recorded revocation of `id` is neither negative nor earlier than `t`. */
  ghost predicate Outdone(events: map<string, Event>, id: string, t: int) {
    exists x :: Recorded(events, x) && About(x, Revoked, id) && x.body.createdAt >= 0 && x.body.createdAt >= t
  }

  /** The stored time is the greatest of what was carried and the recorded revocations. */
  ghost predicate StoredTime(s: State, id: string, carried: int) {
    && (id in s.nodes && !s.nodes[id].revoked ==> s.nodes[id].revokedAt == carried)
    && (id in s.nodes && s.nodes[id].revoked ==>
          && carried <= s.nodes[id].revokedAt && NoneLater(s.events, id, s.nodes[id].revokedAt)
          && (s.nodes[id].revokedAt == carried
              || exists x :: Recorded(s.events, x) && About(x, Revoked, id) && x.body.createdAt == s.nodes[id].revokedAt))
  }

  lemma StepKeepsStoredTime(c: Scheme, s: State, e: Event, id: string, carried: int)
    requires StoredTime(s, id, carried) && ViewFollowsLogAt(s, id) && Apply(c, s, e).Applied?
    requires id !in s.nodes ==> carried == 0
    ensures StoredTime(Next(c, s, e), id,
              if e.body.subject.nodeId == id && e.body.kind != Revoked then e.body.subject.carried else carried)
  {
    AppliedFacts(c, s, e);
    assert Recorded(Next(c, s, e).events, e);
  }

  lemma {:induction false} RunKeepsStoredTime(c: Scheme, federationId: string, offers: seq<Event>, id: string)
    ensures var s := Run(c, federationId, offers);
            StoredTime(s, id, LastCarried(Log(c, Empty(federationId), offers), id))
            && (id !in s.nodes ==> LastCarried(Log(c, Empty(federationId), offers), id) == 0)
  {
    hide Apply, StoredTime, ViewFollowsLogAt;
    if offers == [] {
      NothingStored(federationId, id);
    } else {
      var n := |offers| - 1;
      var s, e := Run(c, federationId, offers[..n]), offers[n];
      var before := Log(c, Empty(federationId), offers[..n]);
      RunKeepsStoredTime(c, federationId, offers[..n], id);
      RunKeepsView(c, federationId, offers[..n]);
      if Apply(c, s, e).Applied? {
        AppliedFacts(c, s, e);
        AppliedIsNext(c, s, e);
        StepKeepsStoredTime(c, s, e, id, LastCarried(before, id));
        assert (before + [e])[..|before|] == before;
      } else {
        NotAppliedIsNoChange(c, s, e);
        assert Log(c, Empty(federationId), offers) == before;
      }
    }
  }

  lemma NothingStored(federationId: string, id: string)
    ensures StoredTime(Empty(federationId), id, 0)
  {
  }

  /** In every reachable state a member's stored time is the one the log records if and only if its last
      enrolment or update brought none, or a recorded revocation is neither negative nor earlier than
      what it brought. */
  lemma TimeFollowsLogExactly(c: Scheme, federationId: string, offers: seq<Event>, id: string)
    ensures var s, carried := Run(c, federationId, offers), LastCarried(Log(c, Empty(federationId), offers), id);
            TimeFollowsLogAt(s, id) <==> id !in s.nodes || carried == 0 || Outdone(s.events, id, carried)
  {
    var s, carried := Run(c, federationId, offers), LastCarried(Log(c, Empty(federationId), offers), id);
    RunKeepsStoredTime(c, federationId, offers, id);
    RunKeepsView(c, federationId, offers);
    assert ViewFollowsLogAt(s, id);
    hide Run, Log, LastCarried;
    StoredTimeDecides(s, id, carried);
  }

  lemma StoredTimeDecides(s: State, id: string, carried: int)
    requires StoredTime(s, id, carried) && ViewFollowsLogAt(s, id)
    ensures TimeFollowsLogAt(s, id) <==> id !in s.nodes || carried == 0 || Outdone(s.events, id, carried)
  {
  }

  /** Two replicas with equal logs show the same time for a revoked member if and only if what they last
      heard it carry is the same, or recorded revocations are no earlier than either. */
  lemma SameEventsSameTimeExactly(c: Scheme, federationId: string, a: seq<Event>, b: seq<Event>, id: string)
    requires Run(c, federationId, a).events == Run(c, federationId, b).events
    requires id in Run(c, federationId, a).nodes && Run(c, federationId, a).nodes[id].revoked
    ensures id in Run(c, federationId, b).nodes
    ensures var s, t := Run(c, federationId, a), Run(c, federationId, b);
            var x, y := LastCarried(Log(c, Empty(federationId), a), id), LastCarried(Log(c, Empty(federationId), b), id);
            s.nodes[id].revokedAt == t.nodes[id].revokedAt <==>
              x == y || exists e :: Recorded(s.events, e) && About(e, Revoked, id) && x <= e.body.createdAt && y <= e.body.createdAt
  {
    var s, t := Run(c, federationId, a), Run(c, federationId, b);
    SameEventsSameView(c, c, federationId, a, b);
    RunKeepsStoredTime(c, federationId, a, id);
    RunKeepsStoredTime(c, federationId, b, id);
    hide Run, Log, LastCarried;
  }
}
