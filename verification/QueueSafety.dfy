/** What every run of the replication queue keeps, and exactly what its starts rely on. */
module QueueSafety {
  import opened Common
  import opened JobQueue

  /******* Building blocks: shortening, mapping and writing the job list *******/

  ghost predicate ListSafe(jobs: seq<Job>, entered: map<string, nat>) {
    DistinctIds(jobs) && OneActivePerReplication(jobs) && EntriesBounded(jobs, entered)
  }

  lemma LastKeepsSafe(jobs: seq<Job>, entered: map<string, nat>)
    requires ListSafe(jobs, entered)
    ensures ListSafe(Last(jobs), entered) && |Last(jobs)| <= MAX_JOBS
  {
  }

  /** A change that wakes no job up, names no job anew and makes none a replication. */
  ghost predicate Tame(jobs: seq<Job>, f: Job -> Job) {
    forall j :: j in jobs ==>
      && f(j).id == j.id && f(j).replicationId == j.replicationId
      && (f(j).kind == Replicate ==> j.kind == Replicate)
      && (IsActive(f(j)) ==> IsActive(j))
  }

  ghost predicate Fits(j: Job, entered: map<string, nat>) {
    && j.id in entered
    && (j.kind == Replicate && j.status == Queued ==> j.recoveries < MAX_RECOVERIES && entered[j.id] <= j.recoveries)
    && (j.kind == Replicate && j.status == Running ==> j.recoveries < MAX_RECOVERIES && entered[j.id] <= j.recoveries + 1)
  }

  lemma EachKeepsSafe(jobs: seq<Job>, f: Job -> Job, entered: map<string, nat>)
    requires ListSafe(jobs, entered) && Tame(jobs, f)
    requires forall j :: j in jobs ==> Fits(f(j), entered)
    ensures ListSafe(Each(jobs, f), entered)
  {
  }

  lemma AppendKeepsSafe(jobs: seq<Job>, j: Job, entered: map<string, nat>)
    requires ListSafe(jobs, entered) && Fits(j, entered)
    requires forall x :: x in jobs ==> x.id != j.id
    requires j.kind == Replicate && IsActive(j) ==> forall x :: x in jobs ==> !ActiveFor(x, j.replicationId)
    ensures ListSafe(jobs + [j], entered)
  {
    assert forall i :: 0 <= i < |jobs| ==> jobs[i] in jobs;
  }

  /** Replacing job `i` by a version of itself: safe when the new version may be active. */
  lemma ReplaceKeepsSafe(jobs: seq<Job>, i: nat, j: Job, entered: map<string, nat>)
    requires i < |jobs| && DistinctIds(jobs) && OneActivePerReplication(jobs)
    requires EntriesBounded(jobs[..i] + jobs[i + 1..], entered)
    requires j.id == jobs[i].id && Fits(j, entered) && (forall id :: id in entered ==> entered[id] <= MAX_RECOVERIES)
    requires j.kind == Replicate && IsActive(j) ==>
               forall k :: 0 <= k < |jobs| && k != i ==> !ActiveFor(jobs[k], j.replicationId)
    ensures ListSafe(jobs[i := j], entered)
  {
  }

  lemma OthersBounded(jobs: seq<Job>, i: nat, entered: map<string, nat>)
    requires i < |jobs| && EntriesBounded(jobs, entered)
    ensures EntriesBounded(jobs[..i] + jobs[i + 1..], entered)
  {
  }

  lemma NoteNewId(jobs: seq<Job>, entered: map<string, nat>, id: string)
    requires EntriesBounded(jobs, entered) && id !in entered
    ensures EntriesBounded(jobs, entered[id := 0]) && forall j :: j in jobs ==> j.id != id
  {
  }

  lemma IdAt(jobs: seq<Job>, i: nat, j: Job)
    requires DistinctIds(jobs) && i < |jobs| && j in jobs && j.id == jobs[i].id
    ensures j == jobs[i]
  {
  }

  /******* Each step *******/

  lemma EnqueueKeepsSafe(q: Queue, entered: map<string, nat>, rid: string, id: string)
    requires Safe(q, entered) && id !in entered
    ensures Safe(Enqueue(q, rid, id), entered[id := 0])
  {
    NoteNewId(q.jobs, entered, id);
    if Enqueue(q, rid, id) != q {
      var j := Job(id, Replicate, rid, Queued, 0);
      AppendKeepsSafe(q.jobs, j, entered[id := 0]);
      LastKeepsSafe(q.jobs + [j], entered[id := 0]);
    }
  }

  lemma CancelKeepsSafe(jobs: seq<Job>, rids: set<string>, entered: map<string, nat>)
    requires ListSafe(jobs, entered)
    ensures ListSafe(Each(jobs, (j: Job) => Cancel(j, rids)), entered)
  {
  }

  lemma RecoverKeepsSafe(q: Queue, entered: map<string, nat>)
    requires Safe(q, entered)
    ensures Safe(Recover(q), entered)
  {
    EachKeepsSafe(q.jobs, (j: Job) => RecoverJob(q, j), entered);
  }

  /** The claims refused are exactly the new ones that would share storage with another. */
  lemma ClaimKeepsApart(claims: set<(string, string)>, claim: (string, string))
    requires ClaimsApart(claims)
    ensures ClaimsApart(claims + {claim}) <==> claim in claims || !Conflicts(claims, claim)
  {
    if ClaimsApart(claims + {claim}) && claim !in claims {
      assert forall c :: c in claims ==> c in claims + {claim} && c != claim;
      assert claim in claims + {claim};
    }
  }

  lemma StartKeepsSafe(q: Queue, entered: map<string, nat>, rid: string, jobId: string, readiness: Readiness)
    requires Safe(q, entered) && Allowed(q, entered, DoStart(rid, jobId, readiness))
    ensures Safe(Start(q, rid, jobId, readiness), Entered(q, entered, DoStart(rid, jobId, readiness)))
  {
    var after := Start(q, rid, jobId, readiness);
    if Starts(q, rid, jobId, readiness) {
      StartEffect(q, rid, jobId, readiness);
      ClaimKeepsApart(q.claims, ClaimFor(q, rid));
      PickedIsQueued(q.jobs, jobId);
      assert q.jobs[IndexOf(q.jobs, jobId)] in q.jobs;
      StartedListSafe(q.jobs, IndexOf(q.jobs, jobId), entered, entered[jobId := entered[jobId] + 1]);
      StartedFlightsKnown(q.flights, q.jobs[IndexOf(q.jobs, jobId)], ClaimFor(q, rid), entered);
    } else if after != q {
      StartEffect(q, rid, jobId, readiness);
      ClaimKeepsApart(q.claims, ClaimFor(q, rid));
    }
    hide Start, Conflicts, IndexOf, Last, ClaimFor, DistinctIds, OneActivePerReplication, ClaimsApart, EntriesBounded, FlightsKnown;
  }

  lemma PickedIsQueued(jobs: seq<Job>, id: string)
    requires DistinctIds(jobs) && exists j :: j in jobs && j.id == id && j.status == Queued
    ensures var i := IndexOf(jobs, id); i < |jobs| && jobs[i].id == id && jobs[i].status == Queued
  {
    var j :| j in jobs && j.id == id && j.status == Queued;
    IdAt(jobs, IndexOf(jobs, id), j);
  }

  lemma StartedFlightsKnown(flights: seq<Flight>, j: Job, claim: (string, string), entered: map<string, nat>)
    requires FlightsKnown(flights, entered) && j.id in entered && j.kind == Replicate
    ensures FlightsKnown(flights + [Flight(j.(status := Running), claim)], entered[j.id := entered[j.id] + 1])
  {
  }

  /** What a start does when it does anything: it takes its claim, and with a job of the replication
      it sets that job running. */
  lemma StartEffect(q: Queue, rid: string, jobId: string, readiness: Readiness)
    requires Start(q, rid, jobId, readiness) != q
    ensures rid in q.replications && q.replications[rid].targetId in q.sources && !Conflicts(q.claims, ClaimFor(q, rid))
    ensures var after, claim, i := Start(q, rid, jobId, readiness), ClaimFor(q, rid), IndexOf(q.jobs, jobId);
            && after.claims == q.claims + {claim}
            && if Starts(q, rid, jobId, readiness) then
                 && i < |q.jobs| && q.jobs[i].kind == Replicate
                 && var j := q.jobs[i].(status := Running);
                    after.jobs == Last(q.jobs[i := j]) && after.flights == q.flights + [Flight(j, claim)]
               else after.jobs == q.jobs && after.flights == q.flights
  {
    hide Conflicts, IndexOf, Last;
  }

  lemma StartedListSafe(jobs: seq<Job>, i: nat, entered: map<string, nat>, now: map<string, nat>)
    requires ListSafe(jobs, entered) && i < |jobs| && jobs[i].kind == Replicate && jobs[i].status == Queued
    requires jobs[i].id in entered && now == entered[jobs[i].id := entered[jobs[i].id] + 1]
    ensures ListSafe(Last(jobs[i := jobs[i].(status := Running)]), now)
    ensures |Last(jobs[i := jobs[i].(status := Running)])| <= MAX_JOBS
  {
    LastKeepsSafe(jobs[i := jobs[i].(status := Running)], now);
  }

  lemma WriteBackKeepsSafe(jobs: seq<Job>, j: Job, entered: map<string, nat>)
    requires ListSafe(jobs, entered) && j.id in entered && !IsActive(j)
    ensures var i := IndexOf(jobs, j.id);
            ListSafe(if i < |jobs| then jobs[i := j] else jobs + [j], entered)
  {
    var i := IndexOf(jobs, j.id);
    if i < |jobs| {
      OthersBounded(jobs, i, entered);
      ReplaceKeepsSafe(jobs, i, j, entered);
    } else {
      AppendKeepsSafe(jobs, j, entered);
    }
  }

  lemma FinishKeepsSafe(q: Queue, entered: map<string, nat>, k: nat, ok: bool)
    requires Safe(q, entered)
    ensures Safe(Finish(q, k, ok), entered)
  {
    hide DistinctIds, OneActivePerReplication, EntriesBounded, ClaimsApart, FlightsKnown, Last, IndexOf;
    if k < |q.flights| {
      var f := q.flights[k];
      FewerFlightsKnown(q.flights, k, entered);
      FewerClaimsApart(q.claims, f.claim);
      LandingKeepsSafe(q.jobs, f.job.(status := if ok then Completed else Failed), entered);
    }
  }

  lemma FewerClaimsApart(claims: set<(string, string)>, claim: (string, string))
    requires ClaimsApart(claims)
    ensures ClaimsApart(claims - {claim})
  {
  }

  lemma FewerFlightsKnown(flights: seq<Flight>, k: nat, entered: map<string, nat>)
    requires FlightsKnown(flights, entered) && k < |flights|
    ensures FlightsKnown(flights[..k] + flights[k + 1..], entered) && flights[k].job.id in entered
  {
    assert forall x :: x in flights[..k] + flights[k + 1..] ==> x in flights;
  }

  lemma LandingKeepsSafe(jobs: seq<Job>, done: Job, entered: map<string, nat>)
    requires ListSafe(jobs, entered) && done.id in entered && !IsActive(done)
    ensures var i := IndexOf(jobs, done.id);
            var written := Last(if i < |jobs| then jobs[i := done] else jobs + [done]);
            ListSafe(written, entered) && |written| <= MAX_JOBS
  {
    WriteBackKeepsSafe(jobs, done, entered);
    var i := IndexOf(jobs, done.id);
    LastKeepsSafe(if i < |jobs| then jobs[i := done] else jobs + [done], entered);
  }

  lemma MaintenanceKeepsSafe(q: Queue, entered: map<string, nat>, id: string, ok: bool)
    requires Safe(q, entered)
    ensures id !in entered ==> Safe(BeginMaintenance(q, id), entered[id := 0])
    ensures Safe(EndMaintenance(q, id, ok), entered)
  {
    if id !in entered {
      NoteNewId(q.jobs, entered, id);
      var j := Job(id, Maintain, "", Running, 0);
      AppendKeepsSafe(q.jobs, j, entered[id := 0]);
      LastKeepsSafe(q.jobs + [j], entered[id := 0]);
    }
    EachKeepsSafe(q.jobs, (j: Job) =>
      if j.id == id then j.(kind := Maintain, status := if ok then Completed else Failed) else j, entered);
    hide ListSafe, Last, Each;
  }

  lemma StepKeepsSafe(q: Queue, entered: map<string, nat>, step: Step)
    requires Safe(q, entered) && Allowed(q, entered, step)
    ensures Safe(Next(q, step), Entered(q, entered, step))
  {
    match step
    case DoEnqueue(rid, id) => EnqueueKeepsSafe(q, entered, rid, id);
    case DoSetPolicy(rid, enabled) => CancelKeepsSafe(q.jobs, {rid}, entered);
    case DoRemoveTarget(target) => CancelKeepsSafe(q.jobs, ReplicationsOf(q, target), entered);
    case DoRecover(cleanedUp) => RecoverKeepsSafe(q, entered);
    case DoStart(rid, jobId, readiness) => StartKeepsSafe(q, entered, rid, jobId, readiness);
    case DoFinish(flight, ok) => FinishKeepsSafe(q, entered, flight, ok);
    case DoCrash =>
    case DoPromote(rid) =>
    case DoBeginMaintenance(id) => MaintenanceKeepsSafe(q, entered, id, true);
    case DoEndMaintenance(id, ok) => MaintenanceKeepsSafe(q, entered, id, ok);
  }

  /******* Whole runs *******/

  /** The queue and its books after a run, or nothing if some step was not allowed. */
  function After(q: Queue, entered: map<string, nat>, steps: seq<Step>): Option<(Queue, map<string, nat>)> {
    if steps == [] then Some((q, entered))
    else
      var n := |steps| - 1;
      var before := After(q, entered, steps[..n]);
      if before.None? || !Allowed(before.value.0, before.value.1, steps[n]) then None
      else Some((Next(before.value.0, steps[n]), Entered(before.value.0, before.value.1, steps[n])))
  }

  /** Through crashes, recoveries, cancellations, removals and forgotten jobs: at most one
      queued or running job per replication, no job running more than three times, no two
      claims on the same storage. */
  lemma {:induction false} RunsStaySafe(replications: map<string, Replication>, sources: map<string, string>, steps: seq<Step>)
    ensures var end := After(Queue([], replications, sources, {}, []), map[], steps);
            end.Some? ==> Safe(end.value.0, end.value.1)
  {
    if steps != [] {
      var n := |steps| - 1;
      RunsStaySafe(replications, sources, steps[..n]);
      var before := After(Queue([], replications, sources, {}, []), map[], steps[..n]);
      if before.Some? && Allowed(before.value.0, before.value.1, steps[n]) {
        StepKeepsSafe(before.value.0, before.value.1, steps[n]);
      }
    }
  }

  /******* What a start relies on *******/

  /** A start takes whatever job carries the id. One active job per replication
      survives exactly when that job is itself still active, or no other one is. */
  lemma StartKeepsOneActive(q: Queue, rid: string, jobId: string, readiness: Readiness)
    requires DistinctIds(q.jobs) && |q.jobs| <= MAX_JOBS && OneActivePerReplication(q.jobs)
    requires Starts(q, rid, jobId, readiness)
    ensures OneActivePerReplication(Start(q, rid, jobId, readiness).jobs) <==>
              || IsActive(q.jobs[IndexOf(q.jobs, jobId)])
              || forall j :: j in q.jobs ==> !ActiveFor(j, rid)
  {
    StartEffect(q, rid, jobId, readiness);
    StartTakesOwnJob(q, rid, jobId, readiness);
    WakingKeepsOneActive(q.jobs, IndexOf(q.jobs, jobId), rid);
    hide *;
    LastOfFew(q.jobs[IndexOf(q.jobs, jobId) := q.jobs[IndexOf(q.jobs, jobId)].(status := Running)]);
  }

  lemma StartTakesOwnJob(q: Queue, rid: string, jobId: string, readiness: Readiness)
    requires Starts(q, rid, jobId, readiness)
    ensures IndexOf(q.jobs, jobId) < |q.jobs| && q.jobs[IndexOf(q.jobs, jobId)].replicationId == rid
  {
  }

  lemma LastOfFew(jobs: seq<Job>)
    requires |jobs| <= MAX_JOBS
    ensures Last(jobs) == jobs
  {
  }

  lemma WakingKeepsOneActive(jobs: seq<Job>, i: nat, rid: string)
    requires i < |jobs| && jobs[i].kind == Replicate && jobs[i].replicationId == rid && OneActivePerReplication(jobs)
    ensures OneActivePerReplication(jobs[i := jobs[i].(status := Running)]) <==>
              IsActive(jobs[i]) || forall j :: j in jobs ==> !ActiveFor(j, rid)
  {
    var after := jobs[i := jobs[i].(status := Running)];
    assert forall k :: 0 <= k < |jobs| ==> jobs[k] in jobs;
    if k :| 0 <= k < |jobs| && k != i && ActiveFor(jobs[k], rid) {
      assert ActiveFor(after[k], rid) && ActiveFor(after[i], rid);
      assert !OneActivePerReplication(after);
    }
  }

  /** The bound on how often a job runs survives a start exactly when the job has been started no more often
      than it was given another turn, and that less often than the limit. */
  lemma StartKeepsBoundExactly(q: Queue, entered: map<string, nat>, rid: string, jobId: string, readiness: Readiness)
    requires DistinctIds(q.jobs) && |q.jobs| <= MAX_JOBS && EntriesBounded(q.jobs, entered)
    requires Starts(q, rid, jobId, readiness)
    ensures jobId in entered
    ensures EntriesBounded(Start(q, rid, jobId, readiness).jobs, Entered(q, entered, DoStart(rid, jobId, readiness))) <==>
              var j := q.jobs[IndexOf(q.jobs, jobId)];
              entered[jobId] <= j.recoveries < MAX_RECOVERIES
  {
    hide Start, IndexOf, Last, ClaimFor, Conflicts, DistinctIds, EntriesBounded;
    StartEffect(q, rid, jobId, readiness);
    var i := IndexOf(q.jobs, jobId);
    WakingKeepsBound(q.jobs, i, entered);
    LastOfFew(q.jobs[i := q.jobs[i].(status := Running)]);
  }

  lemma WakingKeepsBound(jobs: seq<Job>, i: nat, entered: map<string, nat>)
    requires DistinctIds(jobs) && EntriesBounded(jobs, entered) && i < |jobs| && jobs[i].kind == Replicate
    ensures jobs[i].id in entered
    ensures EntriesBounded(jobs[i := jobs[i].(status := Running)], entered[jobs[i].id := entered[jobs[i].id] + 1]) <==>
              entered[jobs[i].id] <= jobs[i].recoveries < MAX_RECOVERIES
  {
    assert jobs[i] in jobs;
    var after := jobs[i := jobs[i].(status := Running)];
    assert after[i] in after;
  }

  /** The queue and its books after one job has been run `n` times by its id. */
  function Reruns(n: nat): (Queue, map<string, nat>) {
    if n == 0 then (Enqueue(NewQueue(), "r", "1"), map["1" := 0])
    else
      var before, start := Reruns(n - 1), DoStart("r", "1", Ready);
      (Next(Next(before.0, start), DoFinish(0, true)), Entered(before.0, before.1, start))
  }

  /** A job that is over can be run again, as often as anybody asks. */
  lemma {:induction false} RerunsAreUnbounded(n: nat)
    ensures Reruns(n).1 == map["1" := n]
  {
    hide *;
    QueuedOrOver(n);
    if n == 0 {
      NoRerun();
    } else {
      RerunsAreUnbounded(n - 1);
      QueuedOrOver(n - 1);
      OneMoreRerun(n - 1);
    }
  }

  /** The queue of one job, waiting or completed. */
  predicate OneJob(q: Queue) {
    q == NewQueue().(jobs := [Job("1", Replicate, "r", Queued, 0)]) || q == NewQueue().(jobs := [Job("1", Replicate, "r", Completed, 0)])
  }

  lemma NoRerun()
    ensures Reruns(0).1 == map["1" := 0] && OneJob(Reruns(0).0)
  {
    OneMoreJob(NewQueue(), "1");
  }

  lemma OneMoreRerun(n: nat)
    requires OneJob(Reruns(n).0) && Reruns(n).1 == map["1" := n]
    ensures Reruns(n + 1).1 == map["1" := n + 1]
  {
    hide *;
    RunOnce(Reruns(n).0);
    OneMoreRound(n);
    StartIsCounted(Reruns(n).0, map["1" := n]);
    assert map["1" := n]["1" := n + 1] == map["1" := n + 1];
  }

  lemma OneMoreRound(n: nat)
    ensures var before, start := Reruns(n), DoStart("r", "1", Ready);
            Reruns(n + 1) == (Next(Next(before.0, start), DoFinish(0, true)), Entered(before.0, before.1, start))
  {
    hide Next, Entered, Enqueue;
  }

  lemma StartIsCounted(q: Queue, entered: map<string, nat>)
    requires Starts(q, "r", "1", Ready) && "1" in entered
    ensures Entered(q, entered, DoStart("r", "1", Ready)) == entered["1" := entered["1"] + 1]
  {
  }

  lemma RunOnce(q: Queue)
    requires OneJob(q)
    ensures Starts(q, "r", "1", Ready) && OneJob(Finish(Start(q, "r", "1", Ready), 0, true))
  {
    assert IndexOf(q.jobs, "1") == 0;
    var started := Start(q, "r", "1", Ready);
    var running := Job("1", Replicate, "r", Running, 0);
    assert started.jobs == [running] && started.flights == [Flight(running, ("s", "d"))] && started.claims == {("s", "d")};
    RunOver(started);
    hide Start, Finish;
  }

  lemma RunOver(started: Queue)
    requires var running := Job("1", Replicate, "r", Running, 0);
             started == NewQueue().(jobs := [running], flights := [Flight(running, ("s", "d"))], claims := {("s", "d")},
                                    replications := started.replications)
    requires started.replications == NewQueue().replications["r" := NewQueue().replications["r"].(status := Replicating)]
    ensures OneJob(Finish(started, 0, true))
  {
    var over := Finish(started, 0, true);
    assert IndexOf(started.jobs, "1") == 0;
    assert over.jobs == [Job("1", Replicate, "r", Completed, 0)] && over.flights == [] && over.claims == {};
    assert over.replications == NewQueue().replications;
  }

  lemma {:induction false} QueuedOrOver(n: nat)
    ensures OneJob(Reruns(n).0)
  {
    if n == 0 {
      NoRerun();
    } else {
      QueuedOrOver(n - 1);
      RunOnce(Reruns(n - 1).0);
      OneMoreRound(n - 1);
      RoundIsStartAndFinish(Reruns(n - 1).0);
    }
    hide *;
  }

  lemma RoundIsStartAndFinish(q: Queue)
    ensures Next(Next(q, DoStart("r", "1", Ready)), DoFinish(0, true)) == Finish(Start(q, "r", "1", Ready), 0, true)
  {
    hide Start, Finish;
  }

  /** A job cancelled while it waits, and replaced after re-enabling, can still be started
      by a worker that listed it earlier: then the replication has two active jobs. */
  lemma StaleStartBreaksOneActive() returns (q: Queue)
    ensures DistinctIds(q.jobs) && |q.jobs| <= MAX_JOBS && OneActivePerReplication(q.jobs)
    ensures Starts(q, "r", "1", Ready)
    ensures !OneActivePerReplication(Start(q, "r", "1", Ready).jobs)
    ensures q == Enqueue(SetPolicy(SetPolicy(Enqueue(NewQueue(), "r", "1"), "r", false), "r", true), "r", "2")
  {
    q := CancelledAndReplaced();
    StaleStart(q);
    WakingOneUp(q.jobs[0], q.jobs[1]);
    hide *;
  }

  lemma StaleStart(q: Queue)
    requires q == NewQueue().(jobs := [Job("1", Replicate, "r", Cancelled, 0), Job("2", Replicate, "r", Queued, 0)])
    ensures Starts(q, "r", "1", Ready)
    ensures Start(q, "r", "1", Ready).jobs == [q.jobs[0].(status := Running), q.jobs[1]]
  {
    assert IndexOf(q.jobs, "1") == 0;
  }

  lemma WakingOneUp(j: Job, k: Job)
    requires j.kind == k.kind == Replicate && j.replicationId == k.replicationId && j.id != k.id
    requires !IsActive(j) && IsActive(k)
    ensures DistinctIds([j, k]) && OneActivePerReplication([j, k])
    ensures !OneActivePerReplication([j.(status := Running), k])
  {
    var after := [j.(status := Running), k];
    assert after[0].replicationId == after[1].replicationId;
  }

  lemma CancelledAndReplaced() returns (q: Queue)
    ensures q == Enqueue(SetPolicy(SetPolicy(Enqueue(NewQueue(), "r", "1"), "r", false), "r", true), "r", "2")
    ensures q == NewQueue().(jobs := [Job("1", Replicate, "r", Cancelled, 0), Job("2", Replicate, "r", Queued, 0)])
  {
    var first, cancelled := Job("1", Replicate, "r", Queued, 0), Job("1", Replicate, "r", Cancelled, 0);
    var second := Job("2", Replicate, "r", Queued, 0);
    OneMoreJob(NewQueue(), "1");
    CancelledAndEnabled(NewQueue().(jobs := [first]));
    OneMoreJob(NewQueue().(jobs := [cancelled]), "2");
    hide *;
    q := NewQueue().(jobs := [cancelled, second]);
    assert [] + [first] == [first] && [cancelled] + [second] == [cancelled, second];
  }

  lemma OneMoreJob(q: Queue, id: string)
    requires q.replications == NewQueue().replications && |q.jobs| < MAX_JOBS && forall j :: j in q.jobs ==> !IsActive(j)
    ensures Enqueue(q, "r", id) == q.(jobs := q.jobs + [Job(id, Replicate, "r", Queued, 0)])
  {
  }

  lemma CancelledAndEnabled(q: Queue)
    requires q == NewQueue().(jobs := [Job("1", Replicate, "r", Queued, 0)])
    ensures SetPolicy(SetPolicy(q, "r", false), "r", true) == q.(jobs := [Job("1", Replicate, "r", Cancelled, 0)])
  {
    var after := SetPolicy(SetPolicy(q, "r", false), "r", true);
    assert after.jobs == [Job("1", Replicate, "r", Cancelled, 0)];
    assert after.replications == q.replications;
  }

  function NewQueue(): Queue {
    Queue([], map["r" := Replication("t", "d", true, Passive)], map["t" := "s"], {}, [])
  }

  /******* What single steps achieve *******/

  lemma {:induction false} NothingRunningNoChange(jobs: seq<Job>, rid: string, status: ReplicationStatus)
    requires forall j :: j in jobs && j.kind == Replicate ==> j.status != Running
    ensures RecoverStatus(jobs, rid, status) == status
  {
    if jobs != [] {
      assert jobs[|jobs| - 1] in jobs;
      NothingRunningNoChange(jobs[..|jobs| - 1], rid, status);
    }
  }

  predicate Interrupted(j: Job, rid: string) {
    j.kind == Replicate && j.replicationId == rid && j.status == Running
  }

  lemma {:induction false} InterruptedIsNotReplicating(jobs: seq<Job>, rid: string, status: ReplicationStatus)
    requires RecoverStatus(jobs, rid, status) == Replicating
    ensures forall j :: j in jobs ==> !Interrupted(j, rid)
  {
    if jobs != [] {
      var front, last := jobs[..|jobs| - 1], jobs[|jobs| - 1];
      InterruptedIsNotReplicating(front, rid, status);
      assert forall j :: j in jobs ==> j in front || j == last;
    }
  }

  /** Recovery leaves no job running and no interrupted replication marked as replicating, and
      once it is done doing it again changes nothing. */
  lemma RecoveryIsFinal(q: Queue)
    ensures forall j :: j in Recover(q).jobs && j.kind == Replicate ==> j.status != Running
    ensures forall rid, j :: rid in q.replications && j in q.jobs && Interrupted(j, rid) ==>
              Recover(q).replications[rid].status != Replicating
    ensures Recover(Recover(q)) == Recover(q)
  {
    var r := Recover(q);
    assert q.jobs[..|q.jobs|] == q.jobs && r.jobs[..|r.jobs|] == r.jobs;
    forall j | j in r.jobs && j.kind == Replicate ensures j.status != Running {
      var i :| 0 <= i < |r.jobs| && r.jobs[i] == j;
      assert r.jobs[i] == RecoverJob(q, q.jobs[i]);
    }
    forall rid, j | rid in q.replications && j in q.jobs && Interrupted(j, rid)
      ensures r.replications[rid].status != Replicating
    {
      if RecoverStatus(q.jobs, rid, q.replications[rid].status) == Replicating {
        InterruptedIsNotReplicating(q.jobs, rid, q.replications[rid].status);
      }
    }
    forall rid | rid in r.replications
      ensures RecoverStatus(r.jobs, rid, r.replications[rid].status) == r.replications[rid].status
    {
      NothingRunningNoChange(r.jobs, rid, r.replications[rid].status);
    }
    assert Recover(r).jobs == r.jobs;
    assert Recover(r).replications == r.replications;
  }

  /** Removing a target, when nothing of it runs, leaves it no active job and nothing to start
      until somebody enables a replication again. */
  lemma RemovalSilencesTarget(q: Queue, target: string)
    requires forall j :: j in q.jobs && j.kind == Replicate && j.replicationId in ReplicationsOf(q, target) ==> j.status != Running
    ensures forall rid :: rid in ReplicationsOf(q, target) ==>
              && !Startable(RemoveTarget(q, target).replications[rid])
              && forall j :: j in RemoveTarget(q, target).jobs ==> !ActiveFor(j, rid)
    ensures forall rid :: rid in q.replications && rid !in ReplicationsOf(q, target) ==>
              RemoveTarget(q, target).replications[rid] == q.replications[rid]
  {
    var after := RemoveTarget(q, target);
    forall rid, j | rid in ReplicationsOf(q, target) && j in after.jobs ensures !ActiveFor(j, rid) {
      var i :| 0 <= i < |after.jobs| && after.jobs[i] == j;
      assert after.jobs[i] == Cancel(q.jobs[i], ReplicationsOf(q, target)) && q.jobs[i] in q.jobs;
    }
  }
}
