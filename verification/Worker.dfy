/** The queue as the server holds it: a state file and the worker's memory, updated in place. */
module Worker {
  import opened Common
  import opened JobQueue
  import opened QueueEffects
  import opened QueueSafety

  /** The jobs once the first `n` of them have been looked at. */
  function RecoveredJobs(q: Queue, n: nat): (jobs: seq<Job>)
    requires n <= |q.jobs|
    ensures |jobs| == |q.jobs| && (n < |q.jobs| ==> jobs[n] == q.jobs[n])
  {
    seq(|q.jobs|, i requires 0 <= i < |q.jobs| => if i < n then RecoverJob(q, q.jobs[i]) else q.jobs[i])
  }

  lemma RecoverNothing(q: Queue)
    ensures RecoveredJobs(q, 0) == q.jobs && RecoveredReplications(q, 0) == q.replications && RecoveredIds(q, 0) == []
  {
  }

  lemma RecoverEverything(q: Queue)
    ensures Recover(q) == q.(jobs := RecoveredJobs(q, |q.jobs|), replications := RecoveredReplications(q, |q.jobs|))
  {
    hide RecoverJob, RecoveredReplications;
    assert Recover(q).jobs == RecoveredJobs(q, |q.jobs|);
  }

  /** Looking at one more job touches at most the replication it belongs to. */
  lemma RecoverOneMore(q: Queue, n: nat)
    requires n < |q.jobs|
    ensures var j, rs := q.jobs[n], RecoveredReplications(q, n);
            RecoveredReplications(q, n + 1) ==
              if j.kind != Replicate || j.status != Running || j.replicationId !in rs then rs
              else if j.recoveries + 1 >= MAX_RECOVERIES then rs[j.replicationId := rs[j.replicationId].(status := Warning)]
              else if rs[j.replicationId].status == Replicating then rs[j.replicationId := rs[j.replicationId].(status := Passive)]
              else rs
  {
    assert q.jobs[..n + 1][..n] == q.jobs[..n];
  }

  lemma RecoverOneMoreJob(q: Queue, n: nat)
    requires n < |q.jobs|
    ensures RecoveredJobs(q, n + 1) == RecoveredJobs(q, n)[n := RecoverJob(q, q.jobs[n])]
  {
    hide RecoverJob;
  }

  /** A job that was not running is left alone. */
  lemma NoTurn(q: Queue, n: nat)
    requires n < |q.jobs| && !(q.jobs[n].kind == Replicate && q.jobs[n].status == Running)
    ensures RecoveredJobs(q, n + 1) == RecoveredJobs(q, n) && RecoveredIds(q, n + 1) == RecoveredIds(q, n)
    ensures RecoveredReplications(q, n + 1) == RecoveredReplications(q, n)
  {
    RecoverOneMore(q, n);
    RecoverOneMoreJob(q, n);
    hide RecoveredJobs, RecoveredReplications;
    assert RecoveredJobs(q, n)[n := q.jobs[n]] == RecoveredJobs(q, n);
  }

  /** An interrupted job whose replication is gone fails. */
  lemma TurnWithoutReplication(q: Queue, n: nat)
    requires n < |q.jobs| && q.jobs[n].kind == Replicate && q.jobs[n].status == Running
    requires q.jobs[n].replicationId !in RecoveredReplications(q, n)
    ensures RecoveredJobs(q, n + 1) == RecoveredJobs(q, n)[n := q.jobs[n].(status := Failed)]
    ensures RecoveredReplications(q, n + 1) == RecoveredReplications(q, n) && RecoveredIds(q, n + 1) == RecoveredIds(q, n)
  {
    RecoverOneMore(q, n);
    RecoverOneMoreJob(q, n);
    hide RecoveredJobs;
  }

  /** Out of turns, it fails and its replication is in warning. */
  lemma TurnTooMany(q: Queue, n: nat)
    requires n < |q.jobs| && q.jobs[n].kind == Replicate && q.jobs[n].status == Running
    requires q.jobs[n].replicationId in RecoveredReplications(q, n) && q.jobs[n].recoveries + 1 >= MAX_RECOVERIES
    ensures var j, rs := q.jobs[n], RecoveredReplications(q, n);
            && RecoveredJobs(q, n + 1) == RecoveredJobs(q, n)[n := j.(status := Failed, recoveries := j.recoveries + 1)]
            && RecoveredReplications(q, n + 1) == rs[j.replicationId := rs[j.replicationId].(status := Warning)]
            && RecoveredIds(q, n + 1) == RecoveredIds(q, n)
  {
    RecoverOneMore(q, n);
    RecoverOneMoreJob(q, n);
    hide RecoveredJobs;
  }

  /** Otherwise it waits for another turn. */
  lemma TurnAgain(q: Queue, n: nat)
    requires n < |q.jobs| && q.jobs[n].kind == Replicate && q.jobs[n].status == Running
    requires q.jobs[n].replicationId in RecoveredReplications(q, n) && q.jobs[n].recoveries + 1 < MAX_RECOVERIES
    ensures var j, rs := q.jobs[n], RecoveredReplications(q, n);
            && RecoveredJobs(q, n + 1) == RecoveredJobs(q, n)[n := j.(status := Queued, recoveries := j.recoveries + 1)]
            && RecoveredReplications(q, n + 1) ==
                 (if rs[j.replicationId].status == Replicating then rs[j.replicationId := rs[j.replicationId].(status := Passive)]
                  else rs)
            && RecoveredIds(q, n + 1) == RecoveredIds(q, n) + [j.id]
  {
    RecoverOneMore(q, n);
    RecoverOneMoreJob(q, n);
    hide RecoveredJobs;
  }

  class ReplicationQueue {
    var jobs: seq<Job>
    var replications: map<string, Replication>
    var sources: map<string, string>
    var claims: set<(string, string)>
    var flights: seq<Flight>

    ghost function View(): Queue
      reads this
    {
      Queue(jobs, replications, sources, claims, flights)
    }

    constructor (replications: map<string, Replication>, sources: map<string, string>)
      ensures View() == Queue([], replications, sources, {}, [])
    {
      this.replications, this.sources := replications, sources;
      jobs, claims, flights := [], {}, [];
    }

    /** Queue a job unless one is waiting or running already; hands back that one's id. */
    method QueueReplication(rid: string, newId: string) returns (r: Result<string>)
      modifies this
      ensures View() == Enqueue(old(View()), rid, newId) && Enqueued(old(View()), View(), rid, newId)
      ensures r.Error? <==> rid !in replications || !replications[rid].enabled || replications[rid].status == Promoted
      ensures r.Ok? && r.value != newId ==>
                jobs == old(jobs) && exists j :: j in jobs && j.kind == Replicate && j.replicationId == rid
                                                 && (j.status == Queued || j.status == Running) && j.id == r.value
      ensures r.Ok? && !HasActive(old(jobs), rid) ==> r.value == newId
    {
      EnqueueEffect(View(), rid, newId);
      if rid !in replications { return Error("Time Machine replication not found"); }
      if !Startable(replications[rid]) { return Error("Replication is not active"); }
      for i := 0 to |jobs|
        invariant View() == old(View())
        invariant forall k :: 0 <= k < i ==> !ActiveFor(jobs[k], rid)
      {
        if ActiveFor(jobs[i], rid) {
          assert jobs[i] in jobs;
          return Ok(jobs[i].id);
        }
      }
      jobs := Last(jobs + [Job(newId, Replicate, rid, Queued, 0)]);
      r := Ok(newId);
    }

    method CancelQueued(rids: set<string>)
      modifies this`jobs
      ensures jobs == Each(old(jobs), (j: Job) => Cancel(j, rids)) && WaitingCancelled(old(jobs), jobs, rids)
    {
      for i := 0 to |jobs|
        invariant |jobs| == |old(jobs)|
        invariant forall k :: 0 <= k < i ==> jobs[k] == Cancel(old(jobs)[k], rids)
        invariant forall k :: i <= k < |jobs| ==> jobs[k] == old(jobs)[k]
      {
        var j := jobs[i];
        if j.kind == Replicate && j.replicationId in rids && j.status == Queued {
          jobs := jobs[i := j.(status := Cancelled)];
        }
      }
    }

    method UpdateReplicationPolicy(rid: string, enabled: bool) returns (ok: bool)
      modifies this
      ensures View() == SetPolicy(old(View()), rid, enabled) && PolicySet(old(View()), View(), rid, enabled)
      ensures ok <==> rid in old(replications) && !(enabled && old(replications)[rid].status == Promoted)
    {
      if rid !in replications { return false; }
      var current := replications[rid];
      if enabled && current.status == Promoted { return false; }
      var updated := current.(enabled := enabled);
      if !enabled {
        updated := updated.(status := Paused);
        CancelQueued({rid});
      } else if current.status == Paused {
        updated := updated.(status := Passive);
      }
      replications := replications[rid := updated];
      ok := true;
    }

    /** Give every interrupted job another turn, up to the limit. `CleanUp` failing means
        nothing is written, which the step `DoRecover(false)` covers. */
    method RecoverInterruptedJobs() returns (recovered: seq<string>)
      modifies this`jobs, this`replications
      ensures View() == Recover(old(View())) && Recovered(old(View()), View())
      ensures recovered == RecoveredIds(old(View()), |old(jobs)|)
    {
      hide RecoveredJobs, RecoveredReplications, RecoveredIds, Recover, RecoverJob;
      recovered := [];
      ghost var before := View();
      RecoverNothing(before);
      for i := 0 to |jobs|
        invariant jobs == RecoveredJobs(before, i)
        invariant replications == RecoveredReplications(before, i)
        invariant recovered == RecoveredIds(before, i)
      {
        var j := jobs[i];
        if j.kind == Replicate && j.status == Running {
          var rid := j.replicationId;
          if rid !in replications {
            TurnWithoutReplication(before, i);
            jobs := jobs[i := j.(status := Failed)];
          } else if j.recoveries + 1 >= MAX_RECOVERIES {
            TurnTooMany(before, i);
            jobs := jobs[i := j.(status := Failed, recoveries := j.recoveries + 1)];
            replications := replications[rid := replications[rid].(status := Warning)];
          } else {
            TurnAgain(before, i);
            jobs := jobs[i := j.(status := Queued, recoveries := j.recoveries + 1)];
            if replications[rid].status == Replicating {
              replications := replications[rid := replications[rid].(status := Passive)];
            }
            recovered := recovered + [j.id];
          }
        } else {
          NoTurn(before, i);
        }
      }
      RecoverEverything(before);
      RecoverEffect(before);
    }

    /** Take both storage keys, or refuse when either is held on either side. */
    method Claim(claim: (string, string)) returns (ok: bool)
      modifies this`claims
      ensures ok <==> forall c :: c in old(claims) ==> c.0 != claim.0 && c.0 != claim.1 && c.1 != claim.0 && c.1 != claim.1
      ensures claims == if ok then old(claims) + {claim} else old(claims)
      ensures ClaimsApart(old(claims)) ==> ClaimsApart(claims)
    {
      ok := !Conflicts(claims, claim);
      if ok && ClaimsApart(claims) { ClaimKeepsApart(claims, claim); }
      if ok { claims := claims + {claim}; }
    }

    method StartRun(rid: string, jobId: string, readiness: Readiness) returns (ok: bool)
      modifies this
      ensures View() == Start(old(View()), rid, jobId, readiness) && Started(old(View()), View(), rid, jobId, readiness)
      ensures ok <==> ClaimFree(old(View()), rid, readiness) && exists i :: NamesJobOf(old(jobs), jobId, rid, i)
    {
      StartRunEffect(View(), rid, jobId, readiness);
      IndexIsFirst(jobs, jobId);
      if rid !in replications || replications[rid].targetId !in sources { return false; }
      var r := replications[rid];
      if !Startable(r) || readiness == NotReady { return false; }
      var claim := (sources[r.targetId], r.destinationKey);
      ok := Claim(claim);
      if !ok { return; }
      var i := IndexOf(jobs, jobId);
      if i == |jobs| || jobs[i].kind != Replicate || jobs[i].replicationId != rid { return false; }
      var j := jobs[i].(status := Running);
      UpdateReplication(rid, Replicating, j);
      flights := flights + [Flight(j, claim)];
      assert |flights| == |old(flights)| + 1;
    }

    method UpdateReplication(rid: string, status: ReplicationStatus, j: Job)
      requires rid in replications
      modifies this`replications, this`jobs
      ensures View() == WriteBack(old(View()), rid, status, j)
      ensures WrittenBack(old(jobs), j, jobs)
      ensures Switched(old(replications), replications, rid, old(replications)[rid].enabled, status)
    {
      WriteBackWrites(View(), rid, status, j);
      replications := replications[rid := replications[rid].(status := status)];
      var i := IndexOf(jobs, j.id);
      if i < |jobs| {
        jobs := jobs[i := j];
      } else {
        jobs := jobs + [j];
      }
      jobs := Last(jobs);
    }

    method FinishRun(k: nat, ok: bool)
      requires k < |flights|
      modifies this
      ensures View() == Finish(old(View()), k, ok) && Finished(old(View()), View(), k, ok)
    {
      FinishEffect(View(), k, ok);
      var f := flights[k];
      if f.job.replicationId in replications {
        UpdateReplication(f.job.replicationId, if ok then Passive else Warning,
                          f.job.(status := if ok then Completed else Failed));
      }
      flights := flights[..k] + flights[k + 1..];
      claims := claims - {f.claim};
    }
  }
}
