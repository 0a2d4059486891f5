/** How long a promoted replication stays promoted. */
module ReplicaPromotion {
  import opened JobQueue
  import opened QueueSafety

  /** The replication exists and stands promoted. */
  predicate StandsPromoted(q: Queue, rid: string) {
    rid in q.replications && q.replications[rid].status == Promoted
  }

  /** The steps that write over a replication's status whatever it is: pausing it, finishing a run of
      it that was under way, and a recovery that finds an interrupted job of it out of turns. */
  predicate EndsPromotion(q: Queue, rid: string, step: Step) {
    match step
    case DoSetPolicy(r, enabled) => r == rid && !enabled
    case DoFinish(k, _) => k < |q.flights| && q.flights[k].job.replicationId == rid
    case DoRecover(cleanedUp) => cleanedUp && exists j :: j in q.jobs && OutOfTurns(j, rid)
    case _ => false
  }

  predicate OutOfTurns(j: Job, rid: string) {
    Interrupted(j, rid) && j.recoveries + 1 >= MAX_RECOVERIES
  }

  lemma {:induction false} RecoveredPromotion(jobs: seq<Job>, rid: string)
    ensures RecoverStatus(jobs, rid, Promoted) ==
            if exists j :: j in jobs && OutOfTurns(j, rid) then Warning else Promoted
  {
    if jobs != [] {
      var front, last := jobs[..|jobs| - 1], jobs[|jobs| - 1];
      RecoveredPromotion(front, rid);
      assert forall j :: j in jobs <==> j in front || j == last;
      assert (exists j :: j in jobs && OutOfTurns(j, rid)) <==>
        (exists j :: j in front && OutOfTurns(j, rid)) || OutOfTurns(last, rid);
    }
  }

  /** A step leaves a promoted replication promoted exactly when it is none of those three. */
  lemma PromotionLastsExactly(q: Queue, rid: string, step: Step)
    requires StandsPromoted(q, rid)
    ensures StandsPromoted(Next(q, step), rid) <==> !EndsPromotion(q, rid, step)
  {
    if step.DoRecover? && step.cleanedUp {
      assert q.jobs[..|q.jobs|] == q.jobs;
      RecoveredPromotion(q.jobs, rid);
    }
  }

  /** Over a whole run it stands promoted at every moment exactly when no step ends that. */
  lemma {:induction false} PromotedThroughout(q: Queue, rid: string, steps: seq<Step>, n: nat)
    requires StandsPromoted(q, rid) && n <= |steps|
    ensures (forall i: nat :: i <= n ==> StandsPromoted(Steps(q, steps, i), rid)) <==>
            (forall i: nat :: i < n ==> !EndsPromotion(Steps(q, steps, i), rid, steps[i]))
  {
    hide Next, EndsPromotion, StandsPromoted;
    if n > 0 {
      PromotedThroughout(q, rid, steps, n - 1);
      if StandsPromoted(Steps(q, steps, n - 1), rid) {
        PromotionLastsExactly(Steps(q, steps, n - 1), rid, steps[n - 1]);
      }
      assert Steps(q, steps, n) == Next(Steps(q, steps, n - 1), steps[n - 1]);
    } else {
      assert Steps(q, steps, 0) == q;
    }
  }

  /** While it stands promoted, no job of it is queued or started. */
  lemma PromotedIsNotStarted(q: Queue, rid: string, jobId: string, readiness: Readiness)
    requires StandsPromoted(q, rid)
    ensures !Starts(q, rid, jobId, readiness) && Start(q, rid, jobId, readiness) == q
    ensures forall id :: Enqueue(q, rid, id) == q
  {
  }

  /** What each of the three leaves behind can be enabled again like any other replication. */
  lemma EndedPromotionCanBeEnabled(q: Queue, rid: string, step: Step)
    requires StandsPromoted(q, rid) && EndsPromotion(q, rid, step)
    ensures rid in Next(q, step).replications
    ensures Startable(SetPolicy(Next(q, step), rid, true).replications[rid])
    ensures SetPolicy(q, rid, true) == q
  {
    PromotionLastsExactly(q, rid, step);
  }

  /** Enabling is refused outright, but pausing first and enabling then makes it an ordinary one. */
  lemma PromotionCanBePausedAway(q: Queue, rid: string)
    requires StandsPromoted(q, rid)
    ensures SetPolicy(SetPolicy(q, rid, false), rid, true).replications[rid] ==
            q.replications[rid].(enabled := true, status := Passive)
  {
  }

  /** From an empty queue: a job is queued, started, its replication promoted while it runs, and the
      run, however it ends, takes the promotion back with nobody pausing anything. */
  lemma RunUnderWayEndsPromotion(ok: bool) returns (q: Queue)
    ensures q == Promote(Start(Enqueue(NewQueue(), "r", "1"), "r", "1", Ready), "r")
    ensures StandsPromoted(q, "r") && !StandsPromoted(Finish(q, 0, ok), "r")
    ensures Startable(SetPolicy(Finish(q, 0, ok), "r", true).replications["r"])
  {
    var q1 := Enqueue(NewQueue(), "r", "1");
    assert q1.jobs == [Job("1", Replicate, "r", Queued, 0)];
    assert IndexOf(q1.jobs, "1") == 0;
    var q2 := Start(q1, "r", "1", Ready);
    assert q2.flights == [Flight(Job("1", Replicate, "r", Running, 0), ("s", "d"))];
    q := Promote(q2, "r");
    PromotionLastsExactly(q, "r", DoFinish(0, ok));
    EndedPromotionCanBeEnabled(q, "r", DoFinish(0, ok));
  }
}
