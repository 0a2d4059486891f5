/** When replicas that have nothing left to tell each other agree, and what keeps them apart. */
module RestAgreement {
  import opened Common
  import opened Membership
  import opened Agreement
  import opened LogReplay
  import opened RecordedEvents
  import opened Convergence

  /** Event ids are digests that no two different events share. */
  ghost predicate CollisionFree(c: Scheme) {
    forall b, x, d, y :: c.digest(b, x) == c.digest(d, y) ==> b == d && x == y
  }

  /** Recorded at `t` and not at `s`. */
  ghost predicate Missing(s: State, t: State, e: Event) {
    Recorded(t.events, e) && !Recorded(s.events, e)
  }

  predicate Rival(s: State, e: Event) {
    s.nodes != map[] && e.body.issuer !in s.nodes && e.body.kind == Joined && e.body.issuer == e.body.subject.nodeId
  }

  /** Why `s` will not take an event although it knows all the event builds on: it has revoked the issuer,
      or the subject of an enrolment or update; it holds a newer record than the update; it knows the
      enrolled member under another key; or the event founds a federation of its own. */
  predicate Blocked(s: State, e: Event) {
    var issuer, id := e.body.issuer, e.body.subject.nodeId;
    || (issuer in s.nodes && s.nodes[issuer].revoked)
    || (e.body.kind != Revoked && id in s.nodes && s.nodes[id].revoked)
    || Stale(s, e)
    || (e.body.kind == Joined && id in s.nodes && s.nodes[id].publicKey != e.body.subject.publicKey)
    || Rival(s, e)
  }

  /** Whoever knows all that `u` recorded knows its members, under the same keys. */
  lemma KnowsMembers(c: Scheme, federationId: string, mine: seq<Event>, theirs: seq<Event>, id: string)
    requires forall x :: !Missing(Run(c, federationId, mine), Run(c, federationId, theirs), x)
    ensures var s, u := Run(c, federationId, mine), Run(c, federationId, theirs);
            id in u.nodes ==> id in s.nodes && s.nodes[id].publicKey == u.nodes[id].publicKey
  {
    var s, u := Run(c, federationId, mine), Run(c, federationId, theirs);
    RunKeepsView(c, federationId, mine);
    RunKeepsView(c, federationId, theirs);
    assert ViewFollowsLogAt(s, id) && ViewFollowsLogAt(u, id);
    hide Run;
    if id in u.nodes {
      var x :| Recorded(u.events, x) && About(x, Joined, id) && x.body.subject.publicKey == u.nodes[id].publicKey;
      assert !Missing(s, u, x);
      assert HasKey(s.events, id, u.nodes[id].publicKey);
    }
  }

  lemma MissingIdIsNew(c: Scheme, s: State, t: State, e: Event)
    requires CollisionFree(c) && LogVouched(c, s) && Vouched(c, t, e) && !Recorded(s.events, e)
    ensures e.eventId !in s.events
  {
  }

  /** The next event `u` applies, missing at a replica that has everything before it and will not take it. */
  lemma NextIsBlocked(c: Scheme, s: State, u: State, e: Event)
    requires CollisionFree(c) && LogVouched(c, s) && LogVouched(c, u) && s.federationId == u.federationId
    requires Apply(c, u, e).Applied? && !Recorded(s.events, e) && Next(c, s, e) == s
    requires forall id :: id in u.nodes ==> id in s.nodes && s.nodes[id].publicKey == u.nodes[id].publicKey
    ensures Blocked(s, e)
    ensures Rival(s, e) ==> u.nodes == map[]
  {
    var t := Next(c, u, e);
    AppliedFacts(c, u, e);
    AppliedIsVouched(c, u, e);
    MissingIdIsNew(c, s, t, e);
    StepSettles(c, u, e);
    if !Blocked(s, e) {
      KeysAgree(c, s, u, e);
      AppliedElsewhere(c, t, s, e);
      InPlaceUnlessBlocked(c, s, u, e);
      AppliedFacts(c, s, e);
      AppliedIsNext(c, s, e);
    }
  }

  lemma KeysAgree(c: Scheme, s: State, u: State, e: Event)
    requires Apply(c, u, e).Applied? && !Blocked(s, e)
    requires forall id :: id in u.nodes ==> id in s.nodes && s.nodes[id].publicKey == u.nodes[id].publicKey
    ensures SameKey(Next(c, u, e), s, e.body.issuer) && SameKey(Next(c, u, e), s, e.body.subject.nodeId)
  {
  }

  lemma InPlaceUnlessBlocked(c: Scheme, s: State, u: State, e: Event)
    requires Apply(c, u, e).Applied? && !Blocked(s, e)
    requires forall id :: id in u.nodes ==> id in s.nodes
    ensures InPlace(s, e) && !Stale(s, e)
  {
  }

  /** Of what a replica at rest is missing, the first event the other one recorded is blocked; and if it
      is a rival founding, it is the other's very first event. */
  lemma {:induction false} FirstMissingIsBlocked(c: Scheme, federationId: string, mine: seq<Event>, theirs: seq<Event>)
    returns (first: Option<Event>)
    requires CollisionFree(c) && NothingNewFor(c, Run(c, federationId, mine), Run(c, federationId, theirs))
    ensures var s, t, log := Run(c, federationId, mine), Run(c, federationId, theirs), Log(c, Empty(federationId), theirs);
            if first.None? then forall e :: !Missing(s, t, e)
            else Missing(s, t, first.value) && Blocked(s, first.value)
                 && (Rival(s, first.value) ==> log != [] && first.value == log[0])
  {
    hide Apply, Next, Blocked, Rival, LogVouched, Log;
    var s, t := Run(c, federationId, mine), Run(c, federationId, theirs);
    if theirs == [] {
      first := None;
    } else {
      var n := |theirs| - 1;
      var u, e := Run(c, federationId, theirs[..n]), theirs[n];
      OfferKeepsRecorded(c, u, e);
      first := FirstMissingIsBlocked(c, federationId, mine, theirs[..n]);
      LogGrows(c, federationId, theirs);
      if first.None? && Apply(c, u, e).Applied? {
        AppliedFacts(c, u, e);
        AppliedIsNext(c, u, e);
        if !Recorded(s.events, e) {
          RunKeepsVouched(c, federationId, mine);
          RunKeepsVouched(c, federationId, theirs[..n]);
          forall id ensures id in u.nodes ==> id in s.nodes && s.nodes[id].publicKey == u.nodes[id].publicKey {
            KnowsMembers(c, federationId, mine, theirs[..n], id);
          }
          assert Recorded(t.events, e);
          NextIsBlocked(c, s, u, e);
          if u.nodes == map[] { NoMembersNoLog(c, federationId, theirs[..n]); }
          first := Some(e);
        } else {
          forall x ensures !Missing(s, t, x) { assert !Missing(s, u, x); }
        }
      } else if !Apply(c, u, e).Applied? {
        NotAppliedIsNoChange(c, u, e);
      }
    }
  }

  lemma LogGrows(c: Scheme, federationId: string, offers: seq<Event>)
    requires offers != []
    ensures var n := |offers| - 1;
            var before, log := Log(c, Empty(federationId), offers[..n]), Log(c, Empty(federationId), offers);
            log == if Apply(c, Run(c, federationId, offers[..n]), offers[n]).Applied? then before + [offers[n]] else before
  {
  }

  lemma NoMembersNoEvents(c: Scheme, s: State)
    requires LogVouched(c, s) && s.nodes == map[]
    ensures s.events == map[]
  {
  }

  lemma NoMembersNoLog(c: Scheme, federationId: string, offers: seq<Event>)
    requires Run(c, federationId, offers).nodes == map[]
    ensures Log(c, Empty(federationId), offers) == []
  {
    hide Offer, Log, LogVouched, Recorded, Empty;
    RunKeepsVouched(c, federationId, offers);
    LogListsRecorded(c, federationId, offers);
    NoMembersNoEvents(c, Run(c, federationId, offers));
    NothingRecorded(Run(c, federationId, offers).events);
    var log := Log(c, Empty(federationId), offers);
    if log != [] {
      FirstIsIn(log);
    }
  }

  lemma FirstIsIn(log: seq<Event>)
    requires log != []
    ensures exists e :: e in log
  {
    assert log[0] in log;
  }

  lemma NothingRecorded(events: map<string, Event>)
    requires events == map[]
    ensures forall e :: !Recorded(events, e)
  {
  }

  /** A replica at rest with another is missing something the other recorded if and only if something it
      is missing is blocked. */
  lemma MissingExactlyWhenBlocked(c: Scheme, federationId: string, mine: seq<Event>, theirs: seq<Event>)
    requires CollisionFree(c) && NothingNewFor(c, Run(c, federationId, mine), Run(c, federationId, theirs))
    ensures var s, t := Run(c, federationId, mine), Run(c, federationId, theirs);
            (exists e :: Missing(s, t, e)) <==> (exists e :: Missing(s, t, e) && Blocked(s, e))
  {
    var first := FirstMissingIsBlocked(c, federationId, mine, theirs);
    hide *;
  }

  /** Two replicas at rest with each other have equal logs if and only if neither blocks anything of the other's. */
  lemma RestAgreesExactly(c: Scheme, federationId: string, a: seq<Event>, b: seq<Event>)
    requires CollisionFree(c)
    requires NothingNewFor(c, Run(c, federationId, a), Run(c, federationId, b))
    requires NothingNewFor(c, Run(c, federationId, b), Run(c, federationId, a))
    ensures var s, t := Run(c, federationId, a), Run(c, federationId, b);
            s.events == t.events <==>
              (forall e :: Missing(s, t, e) ==> !Blocked(s, e)) && (forall e :: Missing(t, s, e) ==> !Blocked(t, e))
  {
    var s, t := Run(c, federationId, a), Run(c, federationId, b);
    MissingExactlyWhenBlocked(c, federationId, a, b);
    MissingExactlyWhenBlocked(c, federationId, b, a);
    RunKeepsVouched(c, federationId, a);
    RunKeepsVouched(c, federationId, b);
    hide Run, Blocked;
    if (forall e :: !Missing(s, t, e)) && (forall e :: !Missing(t, s, e)) {
      NothingMissingSameLog(c, s, t);
    }
  }

  lemma NothingMissingSameLog(c: Scheme, s: State, t: State)
    requires LogVouched(c, s) && LogVouched(c, t)
    requires (forall e :: !Missing(s, t, e)) && (forall e :: !Missing(t, s, e))
    ensures s.events == t.events
  {
    forall k ensures k in s.events <==> k in t.events
             ensures k in s.events ==> s.events[k] == t.events[k]
    {
      if k in s.events { assert !Missing(t, s, s.events[k]); }
      if k in t.events { assert !Missing(s, t, t.events[k]); }
    }
  }

  /** Nobody is revoked at `s`, no update it misses is older than its record, and it knows whoever the other
      enrolled under the same key, if at all. */
  ghost predicate Peaceful(s: State, t: State) {
    && (forall id :: id in s.nodes ==> !s.nodes[id].revoked)
    && (forall e :: Missing(s, t, e) ==> !Stale(s, e))
    && (forall id :: SameKey(s, t, id))
  }

  lemma PeacefulMissesNothing(c: Scheme, federationId: string, mine: seq<Event>, theirs: seq<Event>)
    requires CollisionFree(c) && NothingNewFor(c, Run(c, federationId, mine), Run(c, federationId, theirs))
    requires Peaceful(Run(c, federationId, mine), Run(c, federationId, theirs))
    requires Log(c, Empty(federationId), theirs) != [] ==>
               Recorded(Run(c, federationId, mine).events, Log(c, Empty(federationId), theirs)[0])
    ensures forall e :: !Missing(Run(c, federationId, mine), Run(c, federationId, theirs), e)
  {
    var s, t := Run(c, federationId, mine), Run(c, federationId, theirs);
    var first := FirstMissingIsBlocked(c, federationId, mine, theirs);
    RunKeepsVouched(c, federationId, theirs);
    hide Run, Log;
    assert first.Some? ==> Vouched(c, t, first.value) && SameKey(s, t, first.value.body.subject.nodeId);
  }

  /** So replicas at rest agree when nobody has been revoked, no missing update is stale, they know their
      members under the same keys, and they have the same founding event. */
  lemma PeacefulRestAgrees(c: Scheme, federationId: string, a: seq<Event>, b: seq<Event>)
    requires CollisionFree(c)
    requires NothingNewFor(c, Run(c, federationId, a), Run(c, federationId, b))
    requires NothingNewFor(c, Run(c, federationId, b), Run(c, federationId, a))
    requires Peaceful(Run(c, federationId, a), Run(c, federationId, b)) && Peaceful(Run(c, federationId, b), Run(c, federationId, a))
    requires Log(c, Empty(federationId), a) != [] && Log(c, Empty(federationId), b) != []
    requires Log(c, Empty(federationId), a)[0] == Log(c, Empty(federationId), b)[0]
    ensures Run(c, federationId, a).events == Run(c, federationId, b).events
  {
    LogListsRecorded(c, federationId, a);
    LogListsRecorded(c, federationId, b);
    PeacefulMissesNothing(c, federationId, a, b);
    PeacefulMissesNothing(c, federationId, b, a);
    RunKeepsVouched(c, federationId, a);
    RunKeepsVouched(c, federationId, b);
    hide Peaceful, Run, Log;
    NothingMissingSameLog(c, Run(c, federationId, a), Run(c, federationId, b));
  }
}
