/** What holds of every recorded event, whatever was offered in whatever order. */
module RecordedEvents {
  import opened Membership
  import opened Agreement

  /** The view vouches for the event: its issuer and subject are members, with the keys it was signed
      with and names. */
  ghost predicate Vouched(c: Scheme, s: State, e: Event) {
    && e.body.federationId == s.federationId && e.body.kind != Unsupported
    && e.eventId == c.digest(e.body, e.signature) && e.body.subject.nodeId != ""
    && e.body.issuer in s.nodes && e.body.subject.nodeId in s.nodes
    && c.verify(s.nodes[e.body.issuer].publicKey, e.body, e.signature)
    && (e.body.kind != Revoked ==> e.body.subject.publicKey == s.nodes[e.body.subject.nodeId].publicKey)
    && (e.body.kind == Joined ==> e.body.subject.publicKey != "")
    && (e.body.kind == Updated ==> e.body.issuer == e.body.subject.nodeId)
  }

  ghost predicate LogVouched(c: Scheme, s: State) {
    && (forall k :: k in s.events ==> s.events[k].eventId == k && Vouched(c, s, s.events[k]))
    && (s.nodes == map[] <==> s.events == map[])
  }

  lemma AppliedIsVouched(c: Scheme, s: State, e: Event)
    requires Apply(c, s, e).Applied?
    ensures Vouched(c, Next(c, s, e), e)
  {
  }

  lemma VouchedStays(c: Scheme, s: State, t: State, e: Event)
    requires Vouched(c, s, e) && Settles(s, t) && t.federationId == s.federationId
    ensures Vouched(c, t, e)
  {
  }

  lemma StepKeepsVouched(c: Scheme, s: State, e: Event)
    requires LogVouched(c, s)
    ensures LogVouched(c, Next(c, s, e)) && Next(c, s, e).federationId == s.federationId
  {
    hide Apply, Vouched, Settles;
    if Apply(c, s, e).Applied? {
      AppliedFacts(c, s, e);
      AppliedIsVouched(c, s, e);
      StepSettles(c, s, e);
      var t := Next(c, s, e);
      forall k | k in t.events ensures t.events[k].eventId == k && Vouched(c, t, t.events[k]) {
        if k != e.eventId { VouchedStays(c, s, t, s.events[k]); }
      }
    }
  }

  /** Every event a run has recorded is under its own id and vouched for by the view the run ends in. */
  lemma {:induction false} RunKeepsVouched(c: Scheme, federationId: string, offers: seq<Event>)
    ensures LogVouched(c, Run(c, federationId, offers)) && Run(c, federationId, offers).federationId == federationId
  {
    if offers != [] {
      RunKeepsVouched(c, federationId, offers[..|offers| - 1]);
      StepKeepsVouched(c, Run(c, federationId, offers[..|offers| - 1]), offers[|offers| - 1]);
    }
  }

  /** In terms of the log: an event has a key to be signed with exactly when its issuer was enrolled
      and not revoked, or it enrols the very first member; and the key is the one enrolled. */
  lemma IssuerKeyFollowsLog(c: Scheme, federationId: string, offers: seq<Event>, e: Event)
    ensures var s := Run(c, federationId, offers);
            var first := s.events == map[] && e.body.kind == Joined && e.body.issuer == e.body.subject.nodeId;
            && (IssuerKey(s, e).Ok? <==> first || (IsMember(s.events, e.body.issuer) && !IsRevoked(s.events, e.body.issuer)))
            && (IssuerKey(s, e).Ok? ==>
                  if first then IssuerKey(s, e).value == e.body.subject.publicKey
                  else forall key :: HasKey(s.events, e.body.issuer, key) <==> key == IssuerKey(s, e).value)
  {
    var s := Run(c, federationId, offers);
    RunKeepsView(c, federationId, offers);
    RunKeepsVouched(c, federationId, offers);
    assert ViewFollowsLogAt(s, e.body.issuer);
  }

  /** A member's stored update time is that of a recorded enrolment or update of it. */
  ghost predicate UpdateTimeRecorded(s: State, id: string) {
    id in s.nodes ==>
      exists x :: Recorded(s.events, x) && x.body.kind != Revoked && x.body.subject.nodeId == id
                  && x.body.createdAt == s.nodes[id].updatedAt
  }

  lemma StepKeepsUpdateTime(c: Scheme, s: State, e: Event, id: string)
    requires UpdateTimeRecorded(s, id)
    ensures UpdateTimeRecorded(Next(c, s, e), id)
  {
    if Apply(c, s, e).Applied? {
      AppliedFacts(c, s, e);
      var t := Next(c, s, e);
      assert Recorded(t.events, e);
      if id in s.nodes {
        var x :| Recorded(s.events, x) && x.body.kind != Revoked && x.body.subject.nodeId == id
                 && x.body.createdAt == s.nodes[id].updatedAt;
        assert Recorded(t.events, x);
      }
    }
  }

  lemma {:induction false} RunKeepsUpdateTime(c: Scheme, federationId: string, offers: seq<Event>, id: string)
    ensures UpdateTimeRecorded(Run(c, federationId, offers), id)
  {
    if offers != [] {
      RunKeepsUpdateTime(c, federationId, offers[..|offers| - 1], id);
      StepKeepsUpdateTime(c, Run(c, federationId, offers[..|offers| - 1]), offers[|offers| - 1], id);
    }
  }

  /******* When another replica takes a recorded event *******/

  /** Issuer and subject stand in `u` as the event's kind needs them to. */
  predicate InPlace(u: State, e: Event) {
    var issuer, id := e.body.issuer, e.body.subject.nodeId;
    && ((issuer in u.nodes && !u.nodes[issuer].revoked) || (u.nodes == map[] && e.body.kind == Joined && issuer == id))
    && (e.body.kind != Joined ==> id in u.nodes)
    && (e.body.kind != Revoked ==> !(id in u.nodes && u.nodes[id].revoked))
  }

  predicate SameKey(s: State, u: State, id: string) {
    id in s.nodes && id in u.nodes ==> s.nodes[id].publicKey == u.nodes[id].publicKey
  }

  /** An event one view vouches for is applied by another that does not have it, and knows issuer and
      subject under the same keys if at all, exactly when both are in place and it is not stale. */
  lemma AppliedElsewhere(c: Scheme, s: State, u: State, e: Event)
    requires Vouched(c, s, e) && u.federationId == s.federationId && e.eventId !in u.events
    requires SameKey(s, u, e.body.issuer) && SameKey(s, u, e.body.subject.nodeId)
    ensures Apply(c, u, e).Applied? <==> InPlace(u, e) && !Stale(u, e)
    ensures Apply(c, u, e).Ignored? ==> Stale(u, e)
  {
  }
}
