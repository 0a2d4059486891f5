/**
 Many replicas exchanging events: every exchange schedule comes to rest, what replicas
 at rest may still disagree on, and how a node's own metadata updates settle.
 */
module Convergence {
  import opened Common
  import opened Membership
  import opened Agreement

  /******* Exchanges come to rest *******/

  /** One delivery: a list of events offered, in order, to one replica. */
  datatype Delivery = Delivery(to: nat, events: seq<Event>)

  predicate FromPool(pool: set<Event>, d: Delivery) {
    forall e :: e in d.events ==> e in pool
  }

  function Deliver(c: Scheme, replicas: seq<State>, d: Delivery): (after: seq<State>)
    ensures |after| == |replicas|
  {
    if d.to < |replicas| then replicas[d.to := Offer(c, replicas[d.to], d.events)] else replicas
  }

  function After(c: Scheme, replicas: seq<State>, schedule: nat -> Delivery, steps: nat): (after: seq<State>)
    ensures |after| == |replicas|
  {
    if steps == 0 then replicas else Deliver(c, After(c, replicas, schedule, steps - 1), schedule(steps - 1))
  }

  /** Every replica records only events of the pool. */
  ghost predicate Within(pool: set<Event>, replicas: seq<State>) {
    forall i :: 0 <= i < |replicas| ==> LogWithin(pool, replicas[i])
  }

  ghost predicate LogWithin(pool: set<Event>, s: State) {
    s.events.Keys <= Ids(pool)
  }

  function Ids(pool: set<Event>): set<string> {
    set e | e in pool :: e.eventId
  }

  function Total(replicas: seq<State>): nat {
    if replicas == [] then 0 else |replicas[0].events| + Total(replicas[1..])
  }

  /** An offer adds to the log or changes nothing at all. */
  lemma {:induction false} OfferGrowsOrIsNothing(c: Scheme, s: State, events: seq<Event>, pool: set<Event>)
    requires LogWithin(pool, s) && forall e :: e in events ==> e in pool
    ensures LogWithin(pool, Offer(c, s, events))
    ensures Offer(c, s, events) == s || |Offer(c, s, events).events| > |s.events|
    ensures |Offer(c, s, events).events| >= |s.events|
  {
    hide Apply;
    if events != [] {
      var n := |events| - 1;
      OfferGrowsOrIsNothing(c, s, events[..n], pool);
      StepGrowsOrIsNothing(c, Offer(c, s, events[..n]), events[n]);
      assert events[n] in pool;
    }
  }

  lemma StepGrowsOrIsNothing(c: Scheme, s: State, e: Event)
    ensures Next(c, s, e) == s ||
            (Next(c, s, e).events.Keys == s.events.Keys + {e.eventId} && |Next(c, s, e).events| == |s.events| + 1)
  {
    if Apply(c, s, e).Applied? {
      AppliedFacts(c, s, e);
      assert Next(c, s, e).events.Keys == s.events.Keys + {e.eventId};
      assert |Next(c, s, e).events.Keys| == |s.events.Keys| + 1;
    }
  }

  lemma {:induction false} TotalOfUpdate(replicas: seq<State>, i: nat, s: State)
    requires i < |replicas|
    ensures Total(replicas[i := s]) == Total(replicas) - |replicas[i].events| + |s.events|
  {
    if i == 0 {
      assert replicas[0 := s][1..] == replicas[1..];
    } else {
      assert replicas[i := s][1..] == replicas[1..][i - 1 := s];
      TotalOfUpdate(replicas[1..], i - 1, s);
    }
  }

  lemma {:induction false} TotalBounded(replicas: seq<State>, pool: set<Event>)
    requires Within(pool, replicas)
    ensures Total(replicas) <= |replicas| * |Ids(pool)|
  {
    if replicas != [] {
      forall i | 0 <= i < |replicas[1..]|
        ensures LogWithin(pool, replicas[1..][i])
      {
        assert LogWithin(pool, replicas[i + 1]);
      }
      TotalBounded(replicas[1..], pool);
      assert LogWithin(pool, replicas[0]);
      SubsetIsSmaller(replicas[0].events.Keys, Ids(pool));
      assert |replicas[0].events| == |replicas[0].events.Keys|;
      assert |replicas| * |Ids(pool)| == |replicas[1..]| * |Ids(pool)| + |Ids(pool)|;
    }
  }

  lemma DeliveryGrowsOrIsNothing(c: Scheme, replicas: seq<State>, d: Delivery, pool: set<Event>)
    requires Within(pool, replicas) && FromPool(pool, d)
    ensures Within(pool, Deliver(c, replicas, d))
    ensures Deliver(c, replicas, d) == replicas || Total(Deliver(c, replicas, d)) > Total(replicas)
  {
    if d.to < |replicas| {
      assert LogWithin(pool, replicas[d.to]);
      OfferGrowsOrIsNothing(c, replicas[d.to], d.events, pool);
      TotalOfUpdate(replicas, d.to, Offer(c, replicas[d.to], d.events));
      var after := Deliver(c, replicas, d);
      forall i | 0 <= i < |after|
        ensures LogWithin(pool, after[i])
      {
        assert LogWithin(pool, replicas[i]);
      }
    }
  }

  /** How many of the first `steps` deliveries changed some replica. */
  ghost function Changes(c: Scheme, replicas: seq<State>, schedule: nat -> Delivery, steps: nat): nat {
    if steps == 0 then 0
    else Changes(c, replicas, schedule, steps - 1) +
         (if After(c, replicas, schedule, steps) != After(c, replicas, schedule, steps - 1) then 1 else 0)
  }

  lemma {:induction false} ChangesCounted(c: Scheme, replicas: seq<State>, schedule: nat -> Delivery, steps: nat, pool: set<Event>)
    requires Within(pool, replicas) && forall k :: FromPool(pool, schedule(k))
    ensures Within(pool, After(c, replicas, schedule, steps))
    ensures Changes(c, replicas, schedule, steps) <= Total(After(c, replicas, schedule, steps)) - Total(replicas)
  {
    if steps > 0 {
      ChangesCounted(c, replicas, schedule, steps - 1, pool);
      DeliveryGrowsOrIsNothing(c, After(c, replicas, schedule, steps - 1), schedule(steps - 1), pool);
    }
  }

  /** With `n` replicas and a finite pool of events, at most `n` times the pool's size
      deliveries ever change anything, whatever the schedule. */
  lemma ChangesBounded(c: Scheme, replicas: seq<State>, schedule: nat -> Delivery, steps: nat, pool: set<Event>)
    requires Within(pool, replicas) && forall k :: FromPool(pool, schedule(k))
    ensures Changes(c, replicas, schedule, steps) <= |replicas| * |Ids(pool)|
  {
    ChangesCounted(c, replicas, schedule, steps, pool);
    TotalBounded(After(c, replicas, schedule, steps), pool);
  }

  ghost predicate AtRestFrom(c: Scheme, replicas: seq<State>, schedule: nat -> Delivery, rest: nat) {
    forall k: nat :: k >= rest ==> After(c, replicas, schedule, k) == After(c, replicas, schedule, rest)
  }

  /** So every endless schedule reaches a point after which nothing changes any more. */
  lemma {:induction false} SchedulesComeToRest(c: Scheme, replicas: seq<State>, schedule: nat -> Delivery, pool: set<Event>, from: nat)
    returns (rest: nat)
    requires Within(pool, replicas) && forall k :: FromPool(pool, schedule(k))
    ensures rest >= from && AtRestFrom(c, replicas, schedule, rest)
    decreases |replicas| * |Ids(pool)| - Total(After(c, replicas, schedule, from))
  {
    ChangesCounted(c, replicas, schedule, from, pool);
    TotalBounded(After(c, replicas, schedule, from), pool);
    if k: nat :| k >= from && After(c, replicas, schedule, k) != After(c, replicas, schedule, from) {
      TotalRises(c, replicas, schedule, pool, from, k);
      TotalBounded(After(c, replicas, schedule, k), pool);
      rest := SchedulesComeToRest(c, replicas, schedule, pool, k);
    } else {
      rest := from;
    }
  }

  lemma AfterOneMore(c: Scheme, replicas: seq<State>, schedule: nat -> Delivery, steps: nat)
    ensures After(c, replicas, schedule, steps + 1) == Deliver(c, After(c, replicas, schedule, steps), schedule(steps))
  {
    hide Deliver;
  }

  lemma {:induction false} TotalRises(c: Scheme, replicas: seq<State>, schedule: nat -> Delivery, pool: set<Event>, from: nat, k: nat)
    requires Within(pool, replicas) && (forall j :: FromPool(pool, schedule(j))) && k >= from
    ensures Within(pool, After(c, replicas, schedule, k))
    ensures After(c, replicas, schedule, k) == After(c, replicas, schedule, from) ||
            Total(After(c, replicas, schedule, k)) > Total(After(c, replicas, schedule, from))
    decreases k
  {
    hide *;
    ChangesCounted(c, replicas, schedule, k, pool);
    if k > from {
      TotalRises(c, replicas, schedule, pool, from, k - 1);
      AfterOneMore(c, replicas, schedule, k - 1);
      DeliveryGrowsOrIsNothing(c, After(c, replicas, schedule, k - 1), schedule(k - 1), pool);
    }
  }

  /******* At rest need not mean in agreement *******/

  ghost predicate NothingNewFor(c: Scheme, s: State, t: State) {
    forall e :: Recorded(t.events, e) ==> Next(c, s, e) == s
  }

  /** One replica hears of a server's revocation before that server's last change, the other after it.
      Neither has anything left that the other would take, yet logs and records differ. */
  lemma RestWithoutAgreement(c: Scheme, federationId: string, a: Event, b: Event, revoke: Event, update: Event)
    requires Founding(c, federationId, a) && Enrolment(c, a, b)
    requires Revocation(c, a, b, revoke) && OwnChange(c, b, update)
    requires Distinct([a.eventId, b.eventId, revoke.eventId, update.eventId])
    ensures var s, t := Run(c, federationId, [a, b, revoke, update]), Run(c, federationId, [a, b, update, revoke]);
            var id := b.body.subject.nodeId;
            && NothingNewFor(c, s, t) && NothingNewFor(c, t, s)
            && s.events == t.events - {update.eventId} && update.eventId in t.events
            && id in s.nodes && s.nodes[id].profile == b.body.subject.profile
            && id in t.nodes && t.nodes[id].profile == update.body.subject.profile
  {
    FourIds(a.eventId, b.eventId, revoke.eventId, update.eventId);
    assert b.body.subject.nodeId != "" && a.body.subject.nodeId != b.body.subject.nodeId;
    hide *;
    FourSteps(c, federationId, a, b, revoke, update);
    FourSteps(c, federationId, a, b, update, revoke);
    var s2 := Next(c, Next(c, Empty(federationId), a), b);
    TwoEnrolled(c, federationId, a, b);
    var s, t := Next(c, Next(c, s2, revoke), update), Next(c, Next(c, s2, update), revoke);
    RevokedFirst(c, s2, a, b, revoke, update);
    ChangedFirst(c, s2, a, b, revoke, update);
    OneEventLess(s2.events, revoke, update);
    AllButOne(c, s, t, update);
  }

  lemma OneEventLess(events: map<string, Event>, revoke: Event, update: Event)
    requires revoke.eventId != update.eventId && update.eventId !in events
    ensures var both := events[update.eventId := update][revoke.eventId := revoke];
            && events[revoke.eventId := revoke] == both - {update.eventId}
            && update.eventId in both && both[update.eventId] == update
  {
  }

  lemma AllButOne(c: Scheme, s: State, t: State, update: Event)
    requires s.events == t.events - {update.eventId} && update.eventId in t.events && t.events[update.eventId] == update
    requires Next(c, s, update) == s
    ensures NothingNewFor(c, s, t) && NothingNewFor(c, t, s)
  {
    hide Next;
    NothingNewWhenRecorded(c, s, t, update);
    NothingNewWhenRecorded(c, t, s, update);
  }

  lemma TwoEnrolled(c: Scheme, federationId: string, a: Event, b: Event)
    requires Founding(c, federationId, a) && Enrolment(c, a, b) && a.eventId != b.eventId
    ensures var s := Next(c, Next(c, Empty(federationId), a), b);
            && Knows(s, a) && Knows(s, b) && s.nodes[b.body.subject.nodeId] == MemberFrom(b)
            && s.events == map[a.eventId := a, b.eventId := b]
  {
    hide Next, Apply, SignedBy;
    Founded(c, federationId, a);
    Enrolled(c, Record(Empty(federationId), a, MemberFrom(a)), a, b);
  }

  lemma RevokedFirst(c: Scheme, s: State, a: Event, b: Event, revoke: Event, update: Event)
    requires Knows(s, a) && Knows(s, b) && s.nodes[b.body.subject.nodeId] == MemberFrom(b) && b.body.subject.nodeId != ""
    requires Revocation(c, a, b, revoke) && OwnChange(c, b, update) && revoke.eventId !in s.events
    ensures var t := Next(c, Next(c, s, revoke), update);
            && t.events == s.events[revoke.eventId := revoke] && Next(c, t, update) == t
            && b.body.subject.nodeId in t.nodes && t.nodes[b.body.subject.nodeId].profile == b.body.subject.profile
  {
    hide Next, Apply, SignedBy;
    RevokedNow(c, s, a, b, revoke);
    RevokedIssuesNothing(c, Next(c, s, revoke), update);
  }

  lemma ChangedFirst(c: Scheme, s: State, a: Event, b: Event, revoke: Event, update: Event)
    requires Knows(s, a) && Knows(s, b) && s.nodes[b.body.subject.nodeId] == MemberFrom(b) && b.body.subject.nodeId != ""
    requires a.body.subject.nodeId != b.body.subject.nodeId && revoke.eventId != update.eventId
    requires Revocation(c, a, b, revoke) && OwnChange(c, b, update)
    requires revoke.eventId !in s.events && update.eventId !in s.events
    ensures var t := Next(c, Next(c, s, update), revoke);
            && t.events == s.events[update.eventId := update][revoke.eventId := revoke]
            && b.body.subject.nodeId in t.nodes && t.nodes[b.body.subject.nodeId].profile == update.body.subject.profile
  {
    hide Next, Apply, SignedBy;
    Changed(c, s, b, update);
    RevokedNow(c, Next(c, s, update), a, b, revoke);
  }

  /** Events already recorded change nothing, so only the rest need looking at. */
  lemma NothingNewWhenRecorded(c: Scheme, s: State, t: State, other: Event)
    requires forall e :: Recorded(t.events, e) ==> e.eventId in s.events || e == other
    requires other.eventId in s.events || Next(c, s, other) == s
    ensures NothingNewFor(c, s, t)
  {
    forall e | Recorded(t.events, e) && e.eventId in s.events ensures Next(c, s, e) == s {
      assert !Apply(c, s, e).Applied?;
    }
    hide Next;
  }

  /******* A node's own updates *******/

  /** An update that node `id` with key `key` has itself signed, for this federation. */
  predicate OwnUpdate(c: Scheme, federationId: string, id: string, key: string, e: Event) {
    && id != "" && About(e, Updated, id) && e.body.issuer == id && e.body.federationId == federationId
    && e.body.subject.publicKey == key
    && c.verify(key, e.body, e.signature) && e.eventId == c.digest(e.body, e.signature)
  }

  /** Nobody else touches the node: no enrolment or revocation of it is offered. */
  predicate Quiet(offers: seq<Event>, id: string) {
    forall e :: e in offers ==> !About(e, Joined, id) && !About(e, Revoked, id)
  }

  predicate Active(s: State, id: string) {
    id in s.nodes && !s.nodes[id].revoked
  }

  /** No two different events of the offers and the log share an id. */
  ghost predicate NoCollisions(s: State, offers: seq<Event>) {
    && (forall d, e :: d in offers && e in offers && d.eventId == e.eventId ==> d == e)
    && (forall e :: e in offers && e.eventId in s.events ==> s.events[e.eventId] == e)
  }

  ghost predicate IsOwn(c: Scheme, s: State, id: string, e: Event)
    requires id in s.nodes
  {
    OwnUpdate(c, s.federationId, id, s.nodes[id].publicKey, e)
  }

  /** The record is the start's, when every update offered is older than it, and else that
      of an update no other outdates. */
  ghost predicate LatestWins(c: Scheme, s: State, id: string, offers: seq<Event>, record: Member)
    requires id in s.nodes
  {
    || (record == s.nodes[id] && forall e :: e in offers && IsOwn(c, s, id, e) ==> e.body.createdAt < s.nodes[id].updatedAt)
    || (exists e :: e in offers && IsOwn(c, s, id, e) && record == MemberFrom(e) && e.body.createdAt >= s.nodes[id].updatedAt
           && forall d :: d in offers && IsOwn(c, s, id, d) ==> d.body.createdAt <= e.body.createdAt)
  }

  ghost predicate Unheard(c: Scheme, s: State, id: string, offers: seq<Event>)
    requires id in s.nodes
  {
    forall e :: e in offers && IsOwn(c, s, id, e) ==> e.eventId !in s.events
  }

  /** How one offer moves the node's record while nobody else touches it. */
  lemma OwnStep(c: Scheme, s: State, id: string, e: Event)
    requires Active(s, id) && !About(e, Joined, id) && !About(e, Revoked, id)
    ensures Active(Next(c, s, e), id) && Next(c, s, e).federationId == s.federationId
    ensures Next(c, s, e).nodes[id].publicKey == s.nodes[id].publicKey
    ensures Next(c, s, e).nodes[id].updatedAt >= s.nodes[id].updatedAt
    ensures Next(c, s, e).nodes[id] ==
            if IsOwn(c, s, id, e) && e.eventId !in s.events && e.body.createdAt >= s.nodes[id].updatedAt
            then MemberFrom(e) else s.nodes[id]
    ensures Next(c, s, e).events.Keys <= s.events.Keys + {e.eventId}
  {
    if Apply(c, s, e).Applied? {
      AppliedFacts(c, s, e);
    }
  }

  lemma {:induction false} OwnUpdatesSettle(c: Scheme, s: State, id: string, offers: seq<Event>)
    requires Active(s, id) && Quiet(offers, id) && NoCollisions(s, offers) && Unheard(c, s, id, offers)
    ensures var t := Offer(c, s, offers);
            && Active(t, id) && t.federationId == s.federationId
            && t.nodes[id].publicKey == s.nodes[id].publicKey
            && t.nodes[id].updatedAt >= s.nodes[id].updatedAt
            && LatestWins(c, s, id, offers, t.nodes[id])
            && (forall k :: k in t.events && k !in s.events ==> exists x :: x in offers && x.eventId == k)
  {
    hide Apply, Next;
    if offers != [] {
      var n := |offers| - 1;
      var before, e := offers[..n], offers[n];
      OwnUpdatesSettle(c, s, id, before);
      var t := Offer(c, s, before);
      OwnStep(c, t, id, e);
      assert offers == before + [e];
      LatestWinsGrows(c, s, id, before, e, t.nodes[id], Offer(c, s, offers).nodes[id], t);
    }
  }

  lemma LatestWinsGrows(c: Scheme, s: State, id: string, before: seq<Event>, e: Event, old_: Member, now: Member, t: State)
    requires id in s.nodes && LatestWins(c, s, id, before, old_)
    requires old_.updatedAt >= s.nodes[id].updatedAt
    requires now == if IsOwn(c, s, id, e) && e.eventId !in t.events && e.body.createdAt >= old_.updatedAt
                    then MemberFrom(e) else old_
    requires IsOwn(c, s, id, e) && e.eventId in t.events ==> e in before
    ensures LatestWins(c, s, id, before + [e], now)
  {
  }

  /** Updates with distinct times, offered in any two orders and among any other traffic,
      leave the same record: the latest one's. */
  lemma UpdateOrderIsIrrelevant(c: Scheme, s: State, id: string, a: seq<Event>, b: seq<Event>)
    requires Active(s, id)
    requires Quiet(a, id) && NoCollisions(s, a) && Unheard(c, s, id, a)
    requires Quiet(b, id) && NoCollisions(s, b) && Unheard(c, s, id, b)
    requires forall e :: IsOwn(c, s, id, e) ==> (e in a <==> e in b)
    requires forall d, e :: d in a && e in a && IsOwn(c, s, id, d) && IsOwn(c, s, id, e) ==>
               d.body.createdAt == e.body.createdAt ==> d == e
    ensures id in Offer(c, s, a).nodes && id in Offer(c, s, b).nodes
    ensures Offer(c, s, a).nodes[id] == Offer(c, s, b).nodes[id]
  {
    OwnUpdatesSettle(c, s, id, a);
    OwnUpdatesSettle(c, s, id, b);
  }
}
