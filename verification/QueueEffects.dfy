/**
 What each step of the replication queue changes and what it leaves alone, said of the queue before
 and after it.
 */
module QueueEffects {
  import opened JobQueue

  /******* The job list *******/

  /** The newest hundred jobs of a list: only from its front are jobs dropped. */
  ghost predicate NewestOf(all: seq<Job>, kept: seq<Job>) {
    && |kept| == (if |all| <= 100 then |all| else 100)
    && kept == all[|all| - |kept|..]
  }

  ghost predicate FirstWith(jobs: seq<Job>, id: string, i: int) {
    0 <= i < |jobs| && jobs[i].id == id && forall k :: 0 <= k < i ==> jobs[k].id != id
  }

  /** A job written back: it stands in the place of the job with its id, or behind the others. */
  ghost predicate WrittenBack(before: seq<Job>, j: Job, after: seq<Job>) {
    if exists i :: FirstWith(before, j.id, i)
    then exists i :: FirstWith(before, j.id, i) && NewestOf(before[i := j], after)
    else NewestOf(before + [j], after)
  }

  /** The jobs waiting for some replications are cancelled, others are as before. */
  ghost predicate WaitingCancelled(before: seq<Job>, after: seq<Job>, rids: set<string>) {
    && |after| == |before|
    && forall i :: 0 <= i < |before| ==>
         after[i] == if before[i].kind == Replicate && before[i].replicationId in rids && before[i].status == Queued
                     then before[i].(status := Cancelled) else before[i]
  }

  /** Nothing but one replication's switch and status differs. */
  ghost predicate Switched(before: map<string, Replication>, after: map<string, Replication>, rid: string,
                           enabled: bool, status: ReplicationStatus) {
    && rid in before && after.Keys == before.Keys
    && (forall x :: x in before && x != rid ==> after[x] == before[x])
    && after[rid].enabled == enabled && after[rid].status == status
    && after[rid].targetId == before[rid].targetId && after[rid].destinationKey == before[rid].destinationKey
  }

  /** Claims, runs and the targets' source keys are as before. */
  ghost predicate WorkerUntouched(before: Queue, after: Queue) {
    after.claims == before.claims && after.flights == before.flights && after.sources == before.sources
  }

  /******* The steps *******/

  /** Whether a replication may be queued or started at all. */
  ghost predicate InService(q: Queue, rid: string) {
    rid in q.replications && q.replications[rid].enabled && q.replications[rid].status != Promoted
  }

  ghost predicate HasActive(jobs: seq<Job>, rid: string) {
    exists j :: j in jobs && j.kind == Replicate && j.replicationId == rid && (j.status == Queued || j.status == Running)
  }

  /** A job waits behind all others, unless the replication is out of service or has an active one. */
  ghost predicate Enqueued(before: Queue, after: Queue, rid: string, id: string) {
    if InService(before, rid) && !HasActive(before.jobs, rid)
    then
      && NewestOf(before.jobs + [Job(id, Replicate, rid, Queued, 0)], after.jobs)
      && after.replications == before.replications && WorkerUntouched(before, after)
    else after == before
  }

  /** Pausing cancels what waits; enabling ends a pause and is refused for a promoted replication. */
  ghost predicate PolicySet(before: Queue, after: Queue, rid: string, enabled: bool) {
    if rid !in before.replications || (enabled && before.replications[rid].status == Promoted) then after == before
    else
      var old_ := before.replications[rid].status;
      && Switched(before.replications, after.replications, rid, enabled,
                  if !enabled then Paused else if old_ == Paused then Passive else old_)
      && (if enabled then after.jobs == before.jobs else WaitingCancelled(before.jobs, after.jobs, {rid}))
      && WorkerUntouched(before, after)
  }

  /** Whether a job replicates a target. */
  ghost predicate Replicates(q: Queue, j: Job, target: string) {
    j.kind == Replicate && j.replicationId in q.replications && q.replications[j.replicationId].targetId == target
  }

  /** A target's replications are switched off and its waiting jobs cancelled, unless one runs. */
  ghost predicate TargetRemoved(before: Queue, after: Queue, target: string) {
    if exists j :: j in before.jobs && Replicates(before, j, target) && j.status == Running then after == before
    else
      && after.replications.Keys == before.replications.Keys
      && (forall x :: x in before.replications ==>
            var r := before.replications[x];
            after.replications[x] ==
              if r.targetId != target then r
              else Replication(target, r.destinationKey, false, if r.status == Promoted then Promoted else Paused))
      && |after.jobs| == |before.jobs|
      && (forall i :: 0 <= i < |before.jobs| ==>
            after.jobs[i] == if Replicates(before, before.jobs[i], target) && before.jobs[i].status == Queued
                             then before.jobs[i].(status := Cancelled) else before.jobs[i])
      && WorkerUntouched(before, after)
  }

  /** A job cut off while it ran. */
  ghost predicate CutOff(j: Job, rid: string) {
    j.kind == Replicate && j.status == Running && j.replicationId == rid
  }

  ghost predicate SomeCutOff(jobs: seq<Job>, rid: string) {
    exists j :: j in jobs && CutOff(j, rid)
  }

  ghost predicate SomeAtTheLimit(jobs: seq<Job>, rid: string) {
    exists j :: j in jobs && CutOff(j, rid) && j.recoveries >= 2
  }

  /** Jobs cut off wait again with one more recovery counted, or fail at the third and when their
      replication is gone. A replication with a job that failed so is in warning, and one that was
      replicating is passive. */
  ghost predicate Recovered(before: Queue, after: Queue) {
    && |after.jobs| == |before.jobs|
    && (forall i :: 0 <= i < |before.jobs| ==>
          var j := before.jobs[i];
          after.jobs[i] ==
            if !CutOff(j, j.replicationId) then j
            else if j.replicationId !in before.replications then j.(status := Failed)
            else j.(status := if j.recoveries >= 2 then Failed else Queued, recoveries := j.recoveries + 1))
    && after.replications.Keys == before.replications.Keys
    && (forall x :: x in before.replications ==>
          after.replications[x] == before.replications[x].(status := RecoveredStatus(before, x)))
    && WorkerUntouched(before, after)
  }

  ghost function RecoveredStatus(q: Queue, rid: string): (status: ReplicationStatus)
    requires rid in q.replications
  {
    if SomeAtTheLimit(q.jobs, rid) then Warning
    else if q.replications[rid].status == Replicating && SomeCutOff(q.jobs, rid) then Passive
    else q.replications[rid].status
  }

  /** Whether a start goes as far as taking its claim: the replication is in service, its storage
      ready, and no claim names a key of its source or destination. */
  ghost predicate ClaimFree(q: Queue, rid: string, readiness: Readiness) {
    && InService(q, rid) && q.replications[rid].targetId in q.sources && readiness == Ready
    && forall c :: c in q.claims ==>
         var source, destination := q.sources[q.replications[rid].targetId], q.replications[rid].destinationKey;
         c.0 != source && c.0 != destination && c.1 != source && c.1 != destination
  }

  /** Whether the first job of an id is one of a replication. */
  ghost predicate NamesJobOf(jobs: seq<Job>, id: string, rid: string, i: int) {
    FirstWith(jobs, id, i) && jobs[i].kind == Replicate && jobs[i].replicationId == rid
  }

  /** A start takes the claim, and if its id names a job of the replication, that runs. */
  ghost predicate Started(before: Queue, after: Queue, rid: string, id: string, readiness: Readiness) {
    if !ClaimFree(before, rid, readiness) then after == before
    else
      var claim := (before.sources[before.replications[rid].targetId], before.replications[rid].destinationKey);
      if exists i :: NamesJobOf(before.jobs, id, rid, i)
      then exists i :: NamesJobOf(before.jobs, id, rid, i) && JobStarted(before, after, rid, i, claim)
      else after == before.(claims := before.claims + {claim})
  }

  ghost predicate JobStarted(before: Queue, after: Queue, rid: string, i: nat, claim: (string, string))
    requires i < |before.jobs|
  {
    var j := Job(before.jobs[i].id, Replicate, rid, Running, before.jobs[i].recoveries);
    && after.claims == before.claims + {claim} && after.flights == before.flights + [Flight(j, claim)]
    && Switched(before.replications, after.replications, rid, true, Replicating)
    && NewestOf(before.jobs[i := j], after.jobs) && after.sources == before.sources
  }

  /** The end of a run: its claim and its place among the runs are gone; if its replication is still
      there, that is passive or in warning, and the run's job stands completed or failed. */
  ghost predicate Finished(before: Queue, after: Queue, k: nat, ok: bool)
    requires k < |before.flights|
  {
    var f := before.flights[k];
    var j := Job(f.job.id, f.job.kind, f.job.replicationId, if ok then Completed else Failed, f.job.recoveries);
    && after.flights == before.flights[..k] + before.flights[k + 1..] && after.sources == before.sources
    && (forall c :: c in after.claims <==> c in before.claims && c != f.claim)
    && if j.replicationId in before.replications
       then
         && Switched(before.replications, after.replications, j.replicationId,
                     before.replications[j.replicationId].enabled, if ok then Passive else Warning)
         && WrittenBack(before.jobs, j, after.jobs)
       else after.jobs == before.jobs && after.replications == before.replications
  }

  /** Maintenance that ends marks its own job, wherever that stands. */
  ghost predicate MaintenanceEnded(before: Queue, after: Queue, id: string, ok: bool) {
    && |after.jobs| == |before.jobs|
    && (forall i :: 0 <= i < |before.jobs| ==>
          after.jobs[i] == if before.jobs[i].id == id
                           then Job(id, Maintain, before.jobs[i].replicationId, if ok then Completed else Failed, before.jobs[i].recoveries)
                           else before.jobs[i])
    && after.replications == before.replications && WorkerUntouched(before, after)
  }

  ghost predicate Changed(before: Queue, after: Queue, step: Step) {
    match step
    case DoEnqueue(rid, id) => Enqueued(before, after, rid, id)
    case DoSetPolicy(rid, enabled) => PolicySet(before, after, rid, enabled)
    case DoRemoveTarget(target) => TargetRemoved(before, after, target)
    case DoRecover(cleanedUp) => if cleanedUp then Recovered(before, after) else after == before
    case DoStart(rid, id, readiness) => Started(before, after, rid, id, readiness)
    case DoFinish(k, ok) => if k < |before.flights| then Finished(before, after, k, ok) else after == before
    case DoCrash =>
      && after.claims == {} && after.flights == [] && after.sources == before.sources
      && after.jobs == before.jobs && after.replications == before.replications
    case DoPromote(rid) =>
      if rid !in before.replications then after == before
      else
        && Switched(before.replications, after.replications, rid, false, Promoted)
        && after.jobs == before.jobs && WorkerUntouched(before, after)
    case DoBeginMaintenance(id) =>
      && NewestOf(before.jobs + [Job(id, Maintain, "", Running, 0)], after.jobs)
      && after.replications == before.replications && WorkerUntouched(before, after)
    case DoEndMaintenance(id, ok) => MaintenanceEnded(before, after, id, ok)
  }

  /******* Each step does so *******/

  lemma LastIsNewest(jobs: seq<Job>)
    ensures NewestOf(jobs, Last(jobs))
  {
  }

  lemma IndexIsFirst(jobs: seq<Job>, id: string)
    ensures IndexOf(jobs, id) < |jobs| ==> FirstWith(jobs, id, IndexOf(jobs, id))
    ensures forall i :: FirstWith(jobs, id, i) <==> i == IndexOf(jobs, id) && i < |jobs|
  {
  }

  lemma WriteBackWrites(q: Queue, rid: string, status: ReplicationStatus, j: Job)
    requires rid in q.replications
    ensures var after := WriteBack(q, rid, status, j);
            && WrittenBack(q.jobs, j, after.jobs) && WorkerUntouched(q, after)
            && Switched(q.replications, after.replications, rid, q.replications[rid].enabled, status)
  {
    IndexIsFirst(q.jobs, j.id);
    var i := IndexOf(q.jobs, j.id);
    LastIsNewest(if i < |q.jobs| then q.jobs[i := j] else q.jobs + [j]);
    hide IndexOf, Last, NewestOf, FirstWith;
  }

  lemma OneMoreJob(front: seq<Job>, last: Job, rid: string)
    ensures SomeCutOff(front + [last], rid) <==> SomeCutOff(front, rid) || CutOff(last, rid)
    ensures SomeAtTheLimit(front + [last], rid) <==> SomeAtTheLimit(front, rid) || (CutOff(last, rid) && last.recoveries >= 2)
  {
    hide CutOff;
    assert forall j :: j in front + [last] <==> j in front || j == last;
  }

  lemma {:induction false} RecoverStatusIs(jobs: seq<Job>, rid: string, status: ReplicationStatus)
    ensures RecoverStatus(jobs, rid, status) ==
            if SomeAtTheLimit(jobs, rid) then Warning
            else if status == Replicating && SomeCutOff(jobs, rid) then Passive
            else status
  {
    if jobs != [] {
      var front, last := jobs[..|jobs| - 1], jobs[|jobs| - 1];
      RecoverStatusIs(front, rid, status);
      assert jobs == front + [last];
      OneMoreJob(front, last, rid);
    }
    assert jobs == [] ==> !SomeCutOff(jobs, rid) && !SomeAtTheLimit(jobs, rid);
    hide SomeCutOff, SomeAtTheLimit;
  }

  lemma EnqueueEffect(q: Queue, rid: string, id: string)
    ensures Enqueued(q, Enqueue(q, rid, id), rid, id)
  {
    LastIsNewest(q.jobs + [Job(id, Replicate, rid, Queued, 0)]);
    if HasActive(q.jobs, rid) {
      var j :| j in q.jobs && j.kind == Replicate && j.replicationId == rid && (j.status == Queued || j.status == Running);
      assert ActiveFor(j, rid);
    }
    hide Last, NewestOf;
  }

  lemma SetPolicyEffect(q: Queue, rid: string, enabled: bool)
    ensures PolicySet(q, SetPolicy(q, rid, enabled), rid, enabled)
  {
  }

  lemma RemoveTargetEffect(q: Queue, target: string)
    ensures TargetRemoved(q, RemoveTarget(q, target), target)
  {
    var rids := ReplicationsOf(q, target);
    assert forall j: Job :: Replicates(q, j, target) <==> j.kind == Replicate && j.replicationId in rids;
  }

  lemma RecoverEffect(q: Queue)
    ensures Recovered(q, Recover(q))
  {
    JobsRecovered(q);
    ReplicationsRecovered(q);
    assert WorkerUntouched(q, Recover(q));
    hide Recover, RecoverStatus, RecoveredStatus, RecoveredReplications, WorkerUntouched;
  }

  lemma JobsRecovered(q: Queue)
    ensures |Recover(q).jobs| == |q.jobs|
    ensures forall i :: 0 <= i < |q.jobs| ==>
              var j := q.jobs[i];
              Recover(q).jobs[i] ==
                if !CutOff(j, j.replicationId) then j
                else if j.replicationId !in q.replications then j.(status := Failed)
                else j.(status := if j.recoveries >= 2 then Failed else Queued, recoveries := j.recoveries + 1)
  {
    hide RecoveredReplications;
  }

  lemma ReplicationsRecovered(q: Queue)
    ensures Recover(q).replications.Keys == q.replications.Keys
    ensures forall rid :: rid in q.replications ==>
              Recover(q).replications[rid] == q.replications[rid].(status := RecoveredStatus(q, rid))
  {
    assert q.jobs[..|q.jobs|] == q.jobs;
    forall rid | rid in q.replications
      ensures Recover(q).replications[rid] == q.replications[rid].(status := RecoveredStatus(q, rid))
    {
      RecoverStatusIs(q.jobs, rid, q.replications[rid].status);
      assert Recover(q).replications[rid] ==
             q.replications[rid].(status := RecoverStatus(q.jobs, rid, q.replications[rid].status));
    }
  }

  lemma StartRunEffect(q: Queue, rid: string, id: string, readiness: Readiness)
    ensures Started(q, Start(q, rid, id, readiness), rid, id, readiness)
  {
    if !ClaimFree(q, rid, readiness) {
      RefusedStart(q, rid, id, readiness);
    } else {
      ClaimedStart(q, rid, id, readiness);
    }
    hide *;
  }

  lemma RefusedStart(q: Queue, rid: string, id: string, readiness: Readiness)
    requires !ClaimFree(q, rid, readiness)
    ensures Start(q, rid, id, readiness) == q
  {
    hide IndexOf, Last, WriteBack;
  }

  lemma ClaimedStart(q: Queue, rid: string, id: string, readiness: Readiness)
    requires ClaimFree(q, rid, readiness)
    ensures Started(q, Start(q, rid, id, readiness), rid, id, readiness)
  {
    IndexIsFirst(q.jobs, id);
    var i := IndexOf(q.jobs, id);
    assert InService(q, rid) && q.replications[rid].targetId in q.sources;
    assert forall k :: NamesJobOf(q.jobs, id, rid, k) ==> k == i < |q.jobs|;
    if i < |q.jobs| && NamesJobOf(q.jobs, id, rid, i) {
      StartsJob(q, rid, id, readiness);
    } else {
      StartsNothing(q, rid, id, readiness);
    }
    hide Start, ClaimFree, NamesJobOf, JobStarted, InService, IndexOf, FirstWith;
  }

  lemma NotInConflict(q: Queue, rid: string, readiness: Readiness)
    requires ClaimFree(q, rid, readiness)
    ensures Startable(q.replications[rid]) && readiness == Ready && !Conflicts(q.claims, ClaimFor(q, rid))
  {
  }

  lemma StartsJob(q: Queue, rid: string, id: string, readiness: Readiness)
    requires ClaimFree(q, rid, readiness)
    requires IndexOf(q.jobs, id) < |q.jobs| && NamesJobOf(q.jobs, id, rid, IndexOf(q.jobs, id))
    ensures JobStarted(q, Start(q, rid, id, readiness), rid, IndexOf(q.jobs, id), ClaimFor(q, rid))
  {
    NotInConflict(q, rid, readiness);
    var i := IndexOf(q.jobs, id);
    LastIsNewest(q.jobs[i := q.jobs[i].(status := Running)]);
    hide Conflicts, ClaimFree, Last, NewestOf, IndexOf, FirstWith, Startable;
  }

  lemma StartsNothing(q: Queue, rid: string, id: string, readiness: Readiness)
    requires ClaimFree(q, rid, readiness)
    requires !(IndexOf(q.jobs, id) < |q.jobs| && NamesJobOf(q.jobs, id, rid, IndexOf(q.jobs, id)))
    ensures Start(q, rid, id, readiness) == q.(claims := q.claims + {ClaimFor(q, rid)})
  {
    NotInConflict(q, rid, readiness);
    IndexIsFirst(q.jobs, id);
    hide Conflicts, ClaimFree, Last, NewestOf, Startable, WriteBack, IndexOf, FirstWith;
  }

  lemma FinishEffect(q: Queue, k: nat, ok: bool)
    requires k < |q.flights|
    ensures Finished(q, Finish(q, k, ok), k, ok)
  {
    var f := q.flights[k];
    var landed := q.(flights := q.flights[..k] + q.flights[k + 1..], claims := q.claims - {f.claim});
    if f.job.replicationId in q.replications {
      WriteBackWrites(landed, f.job.replicationId, if ok then Passive else Warning,
                      f.job.(status := if ok then Completed else Failed));
    }
    hide WriteBack, WrittenBack;
  }

  /** Each step of the queue changes just what it should, whatever the queue is like. */
  lemma StepEffect(q: Queue, step: Step)
    ensures Changed(q, Next(q, step), step)
  {
    assert step.DoFinish? && step.flight >= |q.flights| ==> Next(q, step) == q;
    hide Enqueued, PolicySet, TargetRemoved, Recovered, Started, Finished, NewestOf;
    hide Enqueue, SetPolicy, RemoveTarget, Recover, Start, Finish, Last;
    match step {
      case DoEnqueue(rid, id) => EnqueueEffect(q, rid, id);
      case DoSetPolicy(rid, enabled) => SetPolicyEffect(q, rid, enabled);
      case DoRemoveTarget(target) => RemoveTargetEffect(q, target);
      case DoRecover(_) => RecoverEffect(q);
      case DoStart(rid, id, readiness) => StartRunEffect(q, rid, id, readiness);
      case DoFinish(k, ok) => if k < |q.flights| { FinishEffect(q, k, ok); }
      case DoCrash =>
      case DoPromote(_) =>
      case DoBeginMaintenance(id) => LastIsNewest(q.jobs + [Job(id, Maintain, "", Running, 0)]);
      case DoEndMaintenance(_, _) =>
    }
  }
}
