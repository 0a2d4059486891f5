/** Replicas that keep telling each other their whole logs: where every such exchange ends. */
module Exchange {
  import opened Membership
  import opened Convergence
  import opened RestAgreement

  /** Delivery `k` offers replica `i` all that replica `j` has recorded by then. */
  ghost predicate Tells(c: Scheme, replicas: seq<State>, schedule: nat -> Delivery, k: nat, i: nat, j: nat)
    requires j < |replicas|
  {
    && schedule(k).to == i
    && forall e :: Recorded(After(c, replicas, schedule, k)[j].events, e) ==> e in schedule(k).events
  }

  ghost predicate TellsAgain(c: Scheme, replicas: seq<State>, schedule: nat -> Delivery, from: nat, i: nat, j: nat)
    requires j < |replicas|
  {
    exists k: nat :: k >= from && Tells(c, replicas, schedule, k, i, j)
  }

  /** Nobody ever stops telling anybody everything. */
  ghost predicate KeepsTelling(c: Scheme, replicas: seq<State>, schedule: nat -> Delivery) {
    forall i: nat, j: nat, from: nat :: i < |replicas| && j < |replicas| && i != j ==>
      TellsAgain(c, replicas, schedule, from, i, j)
  }

  /** What leaves a log as long as it was has been taken from by no event in it. */
  lemma {:induction false} NothingTaken(c: Scheme, s: State, events: seq<Event>)
    ensures |Offer(c, s, events).events| >= |s.events|
    ensures |Offer(c, s, events).events| == |s.events| ==>
              Offer(c, s, events) == s && forall e :: e in events ==> Next(c, s, e) == s
  {
    hide Next, Apply;
    if events != [] {
      var front, last := events[..|events| - 1], events[|events| - 1];
      NothingTaken(c, s, front);
      StepGrowsOrIsNothing(c, Offer(c, s, front), last);
      assert forall e :: e in events ==> e in front || e == last;
    }
  }

  /** At rest, nobody has anything left to tell that another would take. */
  lemma RestIsQuiet(c: Scheme, replicas: seq<State>, schedule: nat -> Delivery, rest: nat, i: nat, j: nat)
    requires AtRestFrom(c, replicas, schedule, rest) && KeepsTelling(c, replicas, schedule)
    requires i < |replicas| && j < |replicas| && i != j
    ensures NothingNewFor(c, After(c, replicas, schedule, rest)[i], After(c, replicas, schedule, rest)[j])
  {
    hide Next, Offer;
    var r := After(c, replicas, schedule, rest);
    assert TellsAgain(c, replicas, schedule, rest, i, j);
    var k: nat :| k >= rest && Tells(c, replicas, schedule, k, i, j);
    AfterOneMore(c, replicas, schedule, k);
    assert After(c, replicas, schedule, k) == r && After(c, replicas, schedule, k + 1) == r;
    assert Deliver(c, r, schedule(k))[i] == Offer(c, r[i], schedule(k).events);
    NothingTaken(c, r[i], schedule(k).events);
  }

  /** The state of some replica, whatever it was offered. */
  ghost predicate IsRun(c: Scheme, federationId: string, s: State) {
    exists offers :: Run(c, federationId, offers) == s
  }

  lemma {:induction false} AfterIsRun(c: Scheme, federationId: string, replicas: seq<State>, schedule: nat -> Delivery, steps: nat, i: nat)
    requires i < |replicas| && IsRun(c, federationId, replicas[i])
    ensures IsRun(c, federationId, After(c, replicas, schedule, steps)[i])
  {
    hide Next, Offer, IsRun;
    if steps > 0 {
      AfterIsRun(c, federationId, replicas, schedule, steps - 1, i);
      OfferedIsRun(c, federationId, After(c, replicas, schedule, steps - 1)[i], schedule(steps - 1).events);
    }
  }

  lemma OfferedIsRun(c: Scheme, federationId: string, s: State, events: seq<Event>)
    requires IsRun(c, federationId, s)
    ensures IsRun(c, federationId, Offer(c, s, events))
  {
    hide Offer;
    var offers :| Run(c, federationId, offers) == s;
    OfferConcat(c, Empty(federationId), offers, events);
    assert Run(c, federationId, offers + events) == Offer(c, s, events);
  }

  ghost predicate AgreesExactly(s: State, t: State) {
    s.events == t.events <==>
      (forall e :: Missing(s, t, e) ==> !Blocked(s, e)) && (forall e :: Missing(t, s, e) ==> !Blocked(t, e))
  }

  lemma RunsAgreeExactly(c: Scheme, federationId: string, s: State, t: State)
    requires CollisionFree(c) && IsRun(c, federationId, s) && IsRun(c, federationId, t)
    requires NothingNewFor(c, s, t) && NothingNewFor(c, t, s)
    ensures AgreesExactly(s, t)
  {
    hide Run, Missing, Blocked, NothingNewFor;
    var a :| Run(c, federationId, a) == s;
    var b :| Run(c, federationId, b) == t;
    RestAgreesExactly(c, federationId, a, b);
  }

  /** Every endless exchange among such replicas comes to rest, and from then on any two of them have equal
      logs if and only if neither blocks anything of the other's. */
  lemma ExchangesEndInExactAgreement(c: Scheme, federationId: string, replicas: seq<State>, schedule: nat -> Delivery, pool: set<Event>)
    returns (rest: nat)
    requires CollisionFree(c) && KeepsTelling(c, replicas, schedule)
    requires Within(pool, replicas) && forall k :: FromPool(pool, schedule(k))
    requires forall i :: 0 <= i < |replicas| ==> IsRun(c, federationId, replicas[i])
    ensures AtRestFrom(c, replicas, schedule, rest)
    ensures forall i, j :: 0 <= i < j < |replicas| ==>
              AgreesExactly(After(c, replicas, schedule, rest)[i], After(c, replicas, schedule, rest)[j])
  {
    hide *;
    rest := SchedulesComeToRest(c, replicas, schedule, pool, 0);
    forall i, j | 0 <= i < j < |replicas|
      ensures AgreesExactly(After(c, replicas, schedule, rest)[i], After(c, replicas, schedule, rest)[j])
    {
      RestIsQuiet(c, replicas, schedule, rest, i, j);
      RestIsQuiet(c, replicas, schedule, rest, j, i);
      AfterIsRun(c, federationId, replicas, schedule, rest, i);
      AfterIsRun(c, federationId, replicas, schedule, rest, j);
      RunsAgreeExactly(c, federationId, After(c, replicas, schedule, rest)[i], After(c, replicas, schedule, rest)[j]);
    }
  }
}
