/** When the claims held are those of the runs under way, and what becomes of one that is not. */
module StrandedClaims {
  import opened JobQueue
  import opened QueueSafety

  predicate Holds(q: Queue, k: int, claim: (string, string)) {
    0 <= k < |q.flights| && q.flights[k].claim == claim
  }

  ghost predicate Held(q: Queue, claim: (string, string)) {
    exists k :: Holds(q, k, claim)
  }

  /** Every claim is that of one run under way, and every run has its own. */
  ghost predicate ClaimsOfRuns(q: Queue) {
    && (forall claim :: claim in q.claims <==> Held(q, claim))
    && (forall k, m :: 0 <= k < m < |q.flights| ==> q.flights[k].claim != q.flights[m].claim)
  }

  /** A start that gets as far as taking its claim. */
  predicate TakesClaim(q: Queue, rid: string, readiness: Readiness) {
    && rid in q.replications && q.replications[rid].targetId in q.sources
    && Startable(q.replications[rid]) && readiness == Ready && !Conflicts(q.claims, ClaimFor(q, rid))
  }

  predicate NamesJob(q: Queue, rid: string, jobId: string) {
    var i := IndexOf(q.jobs, jobId);
    i < |q.jobs| && q.jobs[i].kind == Replicate && q.jobs[i].replicationId == rid
  }

  /** It takes the claim and finds no such job: the run is given up and the claim is not. */
  predicate Strands(q: Queue, step: Step) {
    step.DoStart? && TakesClaim(q, step.rid, step.readiness) && !NamesJob(q, step.rid, step.jobId)
  }

  /** What the claims and the runs under way are after a start. */
  lemma StartedClaims(q: Queue, rid: string, jobId: string, readiness: Readiness)
    ensures var after := Start(q, rid, jobId, readiness);
            if !TakesClaim(q, rid, readiness) then after == q
            else
              && after.claims == q.claims + {ClaimFor(q, rid)}
              && if NamesJob(q, rid, jobId) then
                   |after.flights| == |q.flights| + 1 && after.flights[..|q.flights|] == q.flights
                   && after.flights[|q.flights|].claim == ClaimFor(q, rid)
                 else after.flights == q.flights
  {
    hide Conflicts, IndexOf, Last;
  }

  lemma ConflictingIsNew(claims: set<(string, string)>, claim: (string, string))
    requires !Conflicts(claims, claim)
    ensures claim !in claims
  {
  }

  lemma OneMoreRun(q: Queue, after: Queue, claim: (string, string))
    requires ClaimsOfRuns(q) && claim !in q.claims && after.claims == q.claims + {claim}
    requires |after.flights| == |q.flights| + 1 && after.flights[..|q.flights|] == q.flights
    requires after.flights[|q.flights|].claim == claim
    ensures ClaimsOfRuns(after)
  {
    assert forall k :: 0 <= k < |q.flights| ==> after.flights[k] == q.flights[k];
    forall c ensures c in after.claims <==> Held(after, c) {
      if Held(q, c) {
        var k :| Holds(q, k, c);
        assert Holds(after, k, c);
      }
      if c == claim {
        assert Holds(after, |q.flights|, c);
      }
      if Held(after, c) && c != claim {
        var k :| Holds(after, k, c);
        assert Holds(q, k, c);
      }
    }
    forall k | 0 <= k < |q.flights| ensures q.flights[k].claim != claim {
      assert Holds(q, k, q.flights[k].claim);
    }
  }

  lemma OneRunLess(q: Queue, k: nat, after: Queue)
    requires ClaimsOfRuns(q) && k < |q.flights|
    requires after.claims == q.claims - {q.flights[k].claim} && after.flights == q.flights[..k] + q.flights[k + 1..]
    ensures ClaimsOfRuns(after)
  {
    var f := q.flights[k];
    forall c ensures c in after.claims <==> Held(after, c) {
      if c != f.claim && Held(q, c) {
        var m :| Holds(q, m, c);
        assert Holds(after, if m < k then m else m - 1, c);
      }
      if Held(after, c) {
        var m :| Holds(after, m, c);
        assert Holds(q, if m < k then m else m + 1, c);
      }
    }
  }

  /** A step keeps the claims those of the runs under way exactly when it is not such a start. */
  lemma ClaimsStayRunsExactly(q: Queue, step: Step)
    requires ClaimsOfRuns(q)
    ensures ClaimsOfRuns(Next(q, step)) <==> !Strands(q, step)
  {
    var after := Next(q, step);
    if step.DoStart? {
      StartKeepsClaimsExactly(q, step.rid, step.jobId, step.readiness);
    } else if step.DoFinish? && step.flight < |q.flights| {
      FinishedClaims(q, step.flight, step.ok);
      OneRunLess(q, step.flight, after);
    } else {
      OtherStepsKeepClaims(q, step);
    }
    hide *;
  }

  lemma StartKeepsClaimsExactly(q: Queue, rid: string, jobId: string, readiness: Readiness)
    requires ClaimsOfRuns(q)
    ensures ClaimsOfRuns(Start(q, rid, jobId, readiness)) <==> !Strands(q, DoStart(rid, jobId, readiness))
  {
    StartedClaims(q, rid, jobId, readiness);
    var after := Start(q, rid, jobId, readiness);
    hide Start, Conflicts, ClaimFor, NamesJob;
    if TakesClaim(q, rid, readiness) {
      var claim := ClaimFor(q, rid);
      ConflictingIsNew(q.claims, claim);
      if NamesJob(q, rid, jobId) {
        OneMoreRun(q, after, claim);
      } else {
        NobodyHolds(q, after, claim);
      }
    }
  }

  lemma NobodyHolds(q: Queue, after: Queue, claim: (string, string))
    requires ClaimsOfRuns(q) && claim !in q.claims && claim in after.claims && after.flights == q.flights
    ensures !ClaimsOfRuns(after)
  {
    if Held(after, claim) {
      var k :| Holds(after, k, claim);
      assert Holds(q, k, claim);
    }
  }

  lemma FinishedClaims(q: Queue, k: nat, ok: bool)
    requires k < |q.flights|
    ensures Finish(q, k, ok).claims == q.claims - {q.flights[k].claim}
    ensures Finish(q, k, ok).flights == q.flights[..k] + q.flights[k + 1..]
  {
  }

  lemma OtherStepsKeepClaims(q: Queue, step: Step)
    requires ClaimsOfRuns(q) && !step.DoStart? && (step.DoFinish? ==> step.flight >= |q.flights|)
    ensures ClaimsOfRuns(Next(q, step))
  {
    var after := Next(q, step);
    assert step.DoCrash? || (after.claims == q.claims && after.flights == q.flights);
    forall claim ensures Held(after, claim) <==> !step.DoCrash? && Held(q, claim) {
      if Held(after, claim) {
        var k :| Holds(after, k, claim);
        assert Holds(q, k, claim);
      }
      if !step.DoCrash? && Held(q, claim) {
        var k :| Holds(q, k, claim);
        assert Holds(after, k, claim);
      }
    }
  }

  ghost predicate Stranded(q: Queue, claim: (string, string)) {
    claim in q.claims && !Held(q, claim)
  }

  /** A claim no run holds is there until the worker process dies, and then it is gone. */
  lemma StrandedUntilCrash(q: Queue, step: Step, claim: (string, string))
    requires Stranded(q, claim)
    ensures Stranded(Next(q, step), claim) <==> !step.DoCrash?
    ensures step.DoCrash? ==> claim !in Next(q, step).claims
  {
    var after := Next(q, step);
    if !step.DoCrash? {
      if step.DoStart? {
        StartedClaims(q, step.rid, step.jobId, step.readiness);
        if TakesClaim(q, step.rid, step.readiness) { ConflictingIsNew(q.claims, ClaimFor(q, step.rid)); }
      } else if step.DoFinish? && step.flight < |q.flights| {
        FinishedClaims(q, step.flight, step.ok);
        assert Holds(q, step.flight, q.flights[step.flight].claim);
      }
      if Held(after, claim) { LaterHolder(q, step, claim); }
    }
  }

  /** Whoever holds a claim afterwards held it before, unless it has just been taken. */
  lemma LaterHolder(q: Queue, step: Step, claim: (string, string))
    requires claim in q.claims && Held(Next(q, step), claim)
    ensures Held(q, claim)
  {
    var after := Next(q, step);
    var k :| Holds(after, k, claim);
    if step.DoStart? {
      StartedClaims(q, step.rid, step.jobId, step.readiness);
      if TakesClaim(q, step.rid, step.readiness) { ConflictingIsNew(q.claims, ClaimFor(q, step.rid)); }
      assert k < |q.flights| ==> after.flights[k] == q.flights[k];
      assert Holds(q, k, claim);
    } else if step.DoFinish? && step.flight < |q.flights| {
      FinishedClaims(q, step.flight, step.ok);
      assert Holds(q, if k < step.flight then k else k + 1, claim);
    } else {
      assert Holds(q, k, claim);
    }
  }

  /** Until then no replication starts that shares the source or the destination with it. */
  lemma StrandedBlocks(q: Queue, claim: (string, string), rid: string, jobId: string, readiness: Readiness)
    requires claim in q.claims && rid in q.replications && q.replications[rid].targetId in q.sources
    requires {claim.0, claim.1} * {ClaimFor(q, rid).0, ClaimFor(q, rid).1} != {}
    ensures Start(q, rid, jobId, readiness) == q
  {
    var x :| x in {claim.0, claim.1} * {ClaimFor(q, rid).0, ClaimFor(q, rid).1};
    assert Conflicts(q.claims, ClaimFor(q, rid));
  }

  /** Over a whole run from such a queue, an empty one included, the claims are those of the runs under way at
      every moment if and only if no start names a job that is not there. */
  lemma {:induction false} ClaimsStayRunsThroughout(q: Queue, steps: seq<Step>, n: nat)
    requires ClaimsOfRuns(q) && n <= |steps|
    ensures (forall i: nat :: i <= n ==> ClaimsOfRuns(Steps(q, steps, i))) <==>
            (forall i: nat :: i < n ==> !Strands(Steps(q, steps, i), steps[i]))
  {
    hide Next, Strands, ClaimsOfRuns;
    if n > 0 {
      ClaimsStayRunsThroughout(q, steps, n - 1);
      if ClaimsOfRuns(Steps(q, steps, n - 1)) {
        ClaimsStayRunsExactly(Steps(q, steps, n - 1), steps[n - 1]);
      }
      assert Steps(q, steps, n) == Next(Steps(q, steps, n - 1), steps[n - 1]);
    } else {
      assert Steps(q, steps, 0) == q;
    }
  }

  /** From an empty queue a start with an id nobody has strands its claim at once. */
  lemma UnknownJobStrands() returns (q: Queue)
    ensures q == Start(NewQueue(), "r", "1", Ready)
    ensures ClaimsOfRuns(NewQueue()) && Stranded(q, ("s", "d")) && q.flights == []
  {
    q := Start(NewQueue(), "r", "1", Ready);
    StartedClaims(NewQueue(), "r", "1", Ready);
    assert forall claim :: !Held(NewQueue(), claim);
    assert forall k :: !Holds(q, k, ("s", "d"));
  }
}
