/**
 Which parts of a replica's view depend on the recorded events alone, and what no run
 can undo: keys, revocations, and the silence of revoked issuers.
 */
module Agreement {
  import opened Common
  import opened Membership

  /******* One step keeps the view tied to the log *******/

  lemma RecordedAfter(s: State, e: Event, id: string)
    requires e.eventId !in s.events
    ensures var after := s.events[e.eventId := e];
            && (IsMember(after, id) <==> IsMember(s.events, id) || About(e, Joined, id))
            && (IsRevoked(after, id) <==> IsRevoked(s.events, id) || About(e, Revoked, id))
            && forall key :: HasKey(after, id, key) <==>
                 HasKey(s.events, id, key) || (About(e, Joined, id) && e.body.subject.publicKey == key)
  {
  }

  lemma StepKeepsViewAt(c: Scheme, s: State, e: Event, id: string)
    requires ViewFollowsLogAt(s, id) && Apply(c, s, e).Applied?
    ensures ViewFollowsLogAt(Next(c, s, e), id)
  {
    AppliedFacts(c, s, e);
    RecordedAfter(s, e, id);
  }

  lemma StepKeepsView(c: Scheme, s: State, e: Event)
    requires ViewFollowsLog(s)
    ensures ViewFollowsLog(Next(c, s, e))
  {
    hide Apply, ViewFollowsLogAt;
    if Apply(c, s, e).Applied? {
      forall id
        ensures ViewFollowsLogAt(Next(c, s, e), id)
      {
        StepKeepsViewAt(c, s, e, id);
      }
    }
  }

  lemma {:induction false} RunKeepsView(c: Scheme, federationId: string, offers: seq<Event>)
    ensures ViewFollowsLog(Run(c, federationId, offers))
  {
    if offers != [] {
      RunKeepsView(c, federationId, offers[..|offers| - 1]);
      StepKeepsView(c, Run(c, federationId, offers[..|offers| - 1]), offers[|offers| - 1]);
    }
  }

  /******* Revocation times *******/

  ghost predicate TimeFollowsLogAt(s: State, id: string) {
    id in s.nodes ==>
      if s.nodes[id].revoked then RevocationTime(s.events, id, s.nodes[id].revokedAt) else s.nodes[id].revokedAt == 0
  }

  ghost predicate TimesFollowLog(s: State) {
    forall id :: TimeFollowsLogAt(s, id)
  }

  /** The time a first revocation stamps equals the recorded one exactly when the member's own
      `_revoked_at` entry does not outdo it. */
  predicate StampIsRecorded(createdAt: int, carried: int) {
    if createdAt < 0 then carried == 0 else carried <= createdAt
  }

  /** No recorded revocation of `id` is later than `t`. */
  ghost predicate NoneLater(events: map<string, Event>, id: string, t: int) {
    forall x :: Recorded(events, x) && About(x, Revoked, id) ==> x.body.createdAt <= t
  }

  /** Any applied revocation leaves the member with the recorded time if and only if: it is the first,
      and what the member carried does not outdo it; or the time was the recorded one already; or the
      new one is neither negative nor earlier than the stored time or any recorded revocation. */
  lemma RevocationTimeExactly(c: Scheme, s: State, e: Event)
    requires Apply(c, s, e).Applied? && e.body.kind == Revoked
    requires ViewFollowsLogAt(s, e.body.subject.nodeId)
    ensures var id, t := e.body.subject.nodeId, Next(c, s, e);
            var stored := s.nodes[id].revokedAt;
            RevocationTime(t.events, id, t.nodes[id].revokedAt) <==>
              if !s.nodes[id].revoked then StampIsRecorded(e.body.createdAt, stored)
              else RevocationTime(s.events, id, stored)
                   || (0 <= e.body.createdAt && stored <= e.body.createdAt && NoneLater(s.events, id, e.body.createdAt))
  {
    AppliedFacts(c, s, e);
    var id, t := e.body.subject.nodeId, Next(c, s, e);
    assert Recorded(t.events, e) && About(e, Revoked, id);
    if s.nodes[id].revoked {
      LaterRevocationExactly(s, t, e, id);
    }
  }

  lemma LaterRevocationExactly(s: State, t: State, e: Event, id: string)
    requires id in s.nodes && About(e, Revoked, id) && IsRevoked(s.events, id)
    requires forall x :: Recorded(t.events, x) <==> Recorded(s.events, x) || x == e
    ensures var stored := s.nodes[id].revokedAt;
            RevocationTime(t.events, id, Max(e.body.createdAt, stored)) <==>
              || RevocationTime(s.events, id, stored)
              || (0 <= e.body.createdAt && stored <= e.body.createdAt && NoneLater(s.events, id, e.body.createdAt))
  {
  }

  lemma StepKeepsTimes(c: Scheme, s: State, e: Event)
    requires ViewFollowsLog(s) && TimesFollowLog(s)
    requires CleanSubjects(Next(c, s, e).events)
    ensures TimesFollowLog(Next(c, s, e))
  {
    hide Apply, ViewFollowsLogAt, TimeFollowsLogAt;
    if Apply(c, s, e).Applied? {
      AppliedFacts(c, s, e);
      assert Recorded(Next(c, s, e).events, e);
      forall id
        ensures TimeFollowsLogAt(Next(c, s, e), id)
      {
        StepKeepsTimeAt(c, s, e, id);
      }
    }
  }

  lemma StepKeepsTimeAt(c: Scheme, s: State, e: Event, id: string)
    requires ViewFollowsLogAt(s, id) && TimeFollowsLogAt(s, id) && Apply(c, s, e).Applied?
    requires e.body.kind != Revoked ==> e.body.subject.carried == 0
    ensures TimeFollowsLogAt(Next(c, s, e), id)
  {
    AppliedFacts(c, s, e);
    if About(e, Revoked, id) {
      RevocationTimeExactly(c, s, e);
    } else {
      assert forall x :: Recorded(Next(c, s, e).events, x) && About(x, Revoked, id) <==>
                         Recorded(s.events, x) && About(x, Revoked, id);
    }
  }

  lemma {:induction false} RunKeepsTimes(c: Scheme, federationId: string, offers: seq<Event>)
    requires CleanSubjects(Run(c, federationId, offers).events)
    ensures TimesFollowLog(Run(c, federationId, offers))
  {
    if offers != [] {
      var before := offers[..|offers| - 1];
      RunKeepsView(c, federationId, before);
      OfferKeepsRecorded(c, Run(c, federationId, before), offers[|offers| - 1]);
      RunKeepsTimes(c, federationId, before);
      StepKeepsTimes(c, Run(c, federationId, before), offers[|offers| - 1]);
    }
  }

  lemma OfferKeepsRecorded(c: Scheme, s: State, e: Event)
    ensures forall x :: Recorded(s.events, x) ==> Recorded(Next(c, s, e).events, x)
  {
  }

  lemma RevocationTimeIsUnique(events: map<string, Event>, id: string, t: int, u: int)
    requires RevocationTime(events, id, t) && RevocationTime(events, id, u)
    ensures t == u
  {
  }

  /******* Replicas with equal event sets agree *******/

  /** Whatever was offered, in whatever order: the same recorded events mean the same
      members, keys and revocations, and, without carried times, the same times too. */
  lemma SameEventsSameView(c: Scheme, d: Scheme, federationId: string, a: seq<Event>, b: seq<Event>)
    requires Run(c, federationId, a).events == Run(d, federationId, b).events
    ensures var s, t := Run(c, federationId, a), Run(d, federationId, b);
            && s.nodes.Keys == t.nodes.Keys
            && (forall id :: id in s.nodes ==>
                  s.nodes[id].publicKey == t.nodes[id].publicKey && s.nodes[id].revoked == t.nodes[id].revoked)
            && (CleanSubjects(s.events) ==>
                  forall id :: id in s.nodes && s.nodes[id].revoked ==> s.nodes[id].revokedAt == t.nodes[id].revokedAt)
  {
    var s, t := Run(c, federationId, a), Run(d, federationId, b);
    RunKeepsView(c, federationId, a);
    RunKeepsView(d, federationId, b);
    forall id
      ensures id in s.nodes <==> id in t.nodes
      ensures id in s.nodes ==>
                s.nodes[id].publicKey == t.nodes[id].publicKey && s.nodes[id].revoked == t.nodes[id].revoked
    {
      assert ViewFollowsLogAt(s, id) && ViewFollowsLogAt(t, id);
    }
    assert s.nodes.Keys == t.nodes.Keys;
    if CleanSubjects(s.events) {
      RunKeepsTimes(c, federationId, a);
      RunKeepsTimes(d, federationId, b);
      forall id | id in s.nodes && s.nodes[id].revoked
        ensures s.nodes[id].revokedAt == t.nodes[id].revokedAt
      {
        assert TimeFollowsLogAt(s, id) && TimeFollowsLogAt(t, id);
        RevocationTimeIsUnique(s.events, id, s.nodes[id].revokedAt, t.nodes[id].revokedAt);
      }
    }
  }

  /******* What no run undoes *******/

  /** `t` is reachable from `s`: nothing `s` has settled may differ. */
  ghost predicate Settles(s: State, t: State) {
    && (forall e :: Recorded(s.events, e) ==> Recorded(t.events, e))
    && (forall id :: id in s.nodes ==> id in t.nodes && t.nodes[id].publicKey == s.nodes[id].publicKey)
    && (forall id :: id in s.nodes && s.nodes[id].revoked ==>
          t.nodes[id].revoked && t.nodes[id].revokedAt >= s.nodes[id].revokedAt
          && t.nodes[id].profile == s.nodes[id].profile)
    && (forall e :: Recorded(t.events, e) && !Recorded(s.events, e) ==>
          !(e.body.issuer in s.nodes && s.nodes[e.body.issuer].revoked))
  }

  lemma StepSettles(c: Scheme, s: State, e: Event)
    ensures Settles(s, Next(c, s, e))
  {
    if Apply(c, s, e).Applied? {
      AppliedFacts(c, s, e);
    }
  }

  lemma SettlesTransitive(s: State, t: State, u: State)
    requires Settles(s, t) && Settles(t, u)
    ensures Settles(s, u)
  {
  }

  /** Keys never change; a revoked node stays revoked, with its profile frozen and its
      revocation time never moved back; and no event it issues is recorded any more. */
  lemma {:induction false} RunsSettle(c: Scheme, s: State, offers: seq<Event>)
    ensures Settles(s, Offer(c, s, offers))
  {
    if offers != [] {
      var before := offers[..|offers| - 1];
      RunsSettle(c, s, before);
      StepSettles(c, Offer(c, s, before), offers[|offers| - 1]);
      SettlesTransitive(s, Offer(c, s, before), Offer(c, s, offers));
    }
  }

  /******* Events as honest servers make them *******/

  predicate SignedBy(c: Scheme, e: Event, key: string) {
    c.verify(key, e.body, e.signature) && e.eventId == c.digest(e.body, e.signature)
  }

  /** The first member enrols itself. */
  predicate Founding(c: Scheme, federationId: string, a: Event) {
    && a.body.federationId == federationId && About(a, Joined, a.body.issuer) && a.body.issuer != ""
    && a.body.subject.publicKey != "" && SignedBy(c, a, a.body.subject.publicKey)
  }

  /** Issued and signed by the member that `a` enrols. */
  predicate IssuedBy(c: Scheme, a: Event, e: Event) {
    && e.body.federationId == a.body.federationId && e.body.issuer == a.body.subject.nodeId
    && SignedBy(c, e, a.body.subject.publicKey)
  }

  /** Another server is enrolled. */
  predicate Enrolment(c: Scheme, a: Event, e: Event) {
    && IssuedBy(c, a, e) && e.body.kind == Joined && e.body.subject.publicKey != ""
    && e.body.subject.nodeId != "" && e.body.subject.nodeId != a.body.subject.nodeId
  }

  predicate Revocation(c: Scheme, a: Event, b: Event, e: Event) {
    IssuedBy(c, a, e) && About(e, Revoked, b.body.subject.nodeId)
  }

  /** A server describes itself anew. */
  predicate OwnChange(c: Scheme, b: Event, e: Event) {
    && IssuedBy(c, b, e) && About(e, Updated, b.body.subject.nodeId)
    && e.body.subject.publicKey == b.body.subject.publicKey && e.body.createdAt >= b.body.createdAt
  }

  /** The replica knows the member that `a` enrols, under its key and not revoked. */
  predicate Knows(s: State, a: Event) {
    && s.federationId == a.body.federationId && a.body.subject.nodeId in s.nodes
    && !s.nodes[a.body.subject.nodeId].revoked && s.nodes[a.body.subject.nodeId].publicKey == a.body.subject.publicKey
  }

  lemma Founded(c: Scheme, federationId: string, a: Event)
    requires Founding(c, federationId, a)
    ensures Next(c, Empty(federationId), a) == Record(Empty(federationId), a, MemberFrom(a))
  {
  }

  lemma Enrolled(c: Scheme, s: State, a: Event, e: Event)
    requires Knows(s, a) && Enrolment(c, a, e) && e.eventId !in s.events
    requires e.body.subject.nodeId in s.nodes ==> Knows(s, e)
    ensures Next(c, s, e) == Record(s, e, MemberFrom(e))
    ensures Knows(Next(c, s, e), a) && Knows(Next(c, s, e), e)
  {
  }

  lemma Changed(c: Scheme, s: State, b: Event, e: Event)
    requires Knows(s, b) && b.body.subject.nodeId != "" && OwnChange(c, b, e) && e.eventId !in s.events
    requires s.nodes[b.body.subject.nodeId].updatedAt <= e.body.createdAt
    ensures Next(c, s, e) == Record(s, e, MemberFrom(e))
  {
  }

  lemma RevokedNow(c: Scheme, s: State, a: Event, b: Event, e: Event)
    requires Knows(s, a) && Revocation(c, a, b, e) && e.eventId !in s.events
    requires b.body.subject.nodeId in s.nodes && b.body.subject.nodeId != ""
    ensures var member := s.nodes[b.body.subject.nodeId];
            Next(c, s, e) ==
              Record(s, e, member.(revoked := true, revokedAt := Max(e.body.createdAt, member.revokedAt)))
  {
  }

  lemma RevokedIssuesNothing(c: Scheme, s: State, e: Event)
    requires e.body.issuer in s.nodes && s.nodes[e.body.issuer].revoked
    ensures Next(c, s, e) == s
  {
  }

  lemma OneMore(c: Scheme, s: State, offers: seq<Event>, e: Event)
    ensures Offer(c, s, offers + [e]) == Next(c, Offer(c, s, offers), e)
  {
  }

  lemma FourSteps(c: Scheme, federationId: string, w: Event, x: Event, y: Event, z: Event)
    ensures Run(c, federationId, [w, x, y, z]) == Next(c, Next(c, Next(c, Next(c, Empty(federationId), w), x), y), z)
  {
    hide Next, Apply;
    var empty := Empty(federationId);
    OneMore(c, empty, [], w);
    OneMore(c, empty, [w], x);
    OneMore(c, empty, [w, x], y);
    OneMore(c, empty, [w, x, y], z);
    assert [] + [w] == [w] && [w] + [x] == [w, x] && [w, x] + [y] == [w, x, y] && [w, x, y] + [z] == [w, x, y, z];
  }

  /******* Carried revocation times break agreement *******/

  /** A server is enrolled twice and then revoked. Replicas that took the enrolments in different orders
      record the same events, and show the same revocation time exactly when what either enrolment carried
      comes to the same, by the time of the revocation. */
  lemma CarriedTimesBreakAgreement(c: Scheme, federationId: string, a: Event, x: Event, y: Event, revoke: Event)
    requires Founding(c, federationId, a) && Enrolment(c, a, x) && Enrolment(c, a, y) && Revocation(c, a, x, revoke)
    requires y.body.subject.nodeId == x.body.subject.nodeId && y.body.subject.publicKey == x.body.subject.publicKey
    requires Distinct([a.eventId, x.eventId, y.eventId, revoke.eventId])
    ensures var s, t := Run(c, federationId, [a, x, y, revoke]), Run(c, federationId, [a, y, x, revoke]);
            var id, at := x.body.subject.nodeId, revoke.body.createdAt;
            && s.events == t.events && id in s.nodes && id in t.nodes && s.nodes[id].revoked && t.nodes[id].revoked
            && (s.nodes[id].revokedAt == t.nodes[id].revokedAt <==>
                  Max(at, x.body.subject.carried) == Max(at, y.body.subject.carried))
  {
    FourIds(a.eventId, x.eventId, y.eventId, revoke.eventId);
    hide Next, Apply;
    FourSteps(c, federationId, a, x, y, revoke);
    FourSteps(c, federationId, a, y, x, revoke);
    EnrolledTwice(c, federationId, a, x, y, revoke);
    EnrolledTwice(c, federationId, a, y, x, revoke);
    assert Run(c, federationId, [a, x, y, revoke]).events == Run(c, federationId, [a, y, x, revoke]).events;
  }

  lemma FourIds(a: string, b: string, c: string, d: string)
    requires Distinct([a, b, c, d])
    ensures a != b && a != c && a != d && b != c && b != d && c != d
  {
    var s := [a, b, c, d];
    assert s[0] != s[1] && s[0] != s[2] && s[0] != s[3] && s[1] != s[2] && s[1] != s[3] && s[2] != s[3];
  }

  lemma EnrolledTwice(c: Scheme, federationId: string, a: Event, first: Event, second: Event, revoke: Event)
    requires Founding(c, federationId, a) && Enrolment(c, a, first) && Enrolment(c, a, second)
    requires Revocation(c, a, first, revoke)
    requires second.body.subject.nodeId == first.body.subject.nodeId
    requires second.body.subject.publicKey == first.body.subject.publicKey
    requires a.eventId != first.eventId && a.eventId != second.eventId && a.eventId != revoke.eventId
    requires first.eventId != second.eventId && first.eventId != revoke.eventId && second.eventId != revoke.eventId
    ensures var s := Next(c, Next(c, Next(c, Next(c, Empty(federationId), a), first), second), revoke);
            var id := first.body.subject.nodeId;
            && s.events == map[a.eventId := a, first.eventId := first, second.eventId := second, revoke.eventId := revoke]
            && id in s.nodes && s.nodes[id].revoked
            && s.nodes[id].revokedAt == Max(revoke.body.createdAt, second.body.subject.carried)
  {
    hide Next, Apply, SignedBy;
    Founded(c, federationId, a);
    var s1 := Record(Empty(federationId), a, MemberFrom(a));
    Enrolled(c, s1, a, first);
    var s2 := Record(s1, first, MemberFrom(first));
    Enrolled(c, s2, a, second);
    RevokedNow(c, Record(s2, second, MemberFrom(second)), a, first, revoke);
  }
}
