/**
 The replication queue: jobs that wait, run, are recovered after a crash, cancelled and
 forgotten; and the claims that keep two replications off the same storage.
 Each section the server runs under its lock is one step here, and so is the start of a run.
 */
module JobQueue {

  datatype JobKind = Replicate | Maintain

  datatype JobStatus = Queued | Running | Completed | Failed | Cancelled

  datatype Job = Job(id: string, kind: JobKind, replicationId: string, status: JobStatus, recoveries: nat)

  datatype ReplicationStatus = Passive | Replicating | Warning | Paused | Promoted

  datatype Replication = Replication(targetId: string, destinationKey: string, enabled: bool, status: ReplicationStatus)

  /** A run under way in the worker's memory: its own copy of the job, and its claim. */
  datatype Flight = Flight(job: Job, claim: (string, string))

  /** What is persisted, and what the worker process holds in memory. `sources` gives each
      target's source key. */
  datatype Queue = Queue(
    jobs: seq<Job>,
    replications: map<string, Replication>,
    sources: map<string, string>,
    claims: set<(string, string)>,
    flights: seq<Flight>)

  const MAX_JOBS := 100
  const MAX_RECOVERIES := 3

  predicate IsActive(j: Job) { j.status == Queued || j.status == Running }

  predicate ActiveFor(j: Job, replicationId: string) {
    j.kind == Replicate && j.replicationId == replicationId && IsActive(j)
  }

  function Last(jobs: seq<Job>): seq<Job> {
    if |jobs| <= MAX_JOBS then jobs else jobs[|jobs| - MAX_JOBS..]
  }

  function Each(jobs: seq<Job>, f: Job -> Job): (after: seq<Job>)
    ensures |after| == |jobs| && forall i :: 0 <= i < |jobs| ==> after[i] == f(jobs[i])
  {
    seq(|jobs|, i requires 0 <= i < |jobs| => f(jobs[i]))
  }

  function IndexOf(jobs: seq<Job>, id: string): (i: nat)
    ensures i <= |jobs| && (i < |jobs| ==> jobs[i].id == id)
    ensures forall k :: 0 <= k < i ==> jobs[k].id != id
  {
    if jobs == [] || jobs[0].id == id then 0 else 1 + IndexOf(jobs[1..], id)
  }

  /******* The steps *******/

  predicate Startable(r: Replication) { r.enabled && r.status != Promoted }

  /** `queue_replication`: one job at a time per replication. */
  function Enqueue(q: Queue, rid: string, id: string): Queue {
    if rid !in q.replications || !Startable(q.replications[rid]) then q
    else if exists j :: j in q.jobs && ActiveFor(j, rid) then q
    else q.(jobs := Last(q.jobs + [Job(id, Replicate, rid, Queued, 0)]))
  }

  function Cancel(j: Job, rids: set<string>): Job {
    if j.kind == Replicate && j.replicationId in rids && j.status == Queued then j.(status := Cancelled) else j
  }

  /** `update_replication_policy`: disabling pauses the replication and cancels what waits. */
  function SetPolicy(q: Queue, rid: string, enabled: bool): Queue {
    if rid !in q.replications || (enabled && q.replications[rid].status == Promoted) then q
    else
      var r := q.replications[rid];
      var status := if !enabled then Paused else if r.status == Paused then Passive else r.status;
      q.(replications := q.replications[rid := r.(enabled := enabled, status := status)],
         jobs := if enabled then q.jobs else Each(q.jobs, (j: Job) => Cancel(j, {rid})))
  }

  function ReplicationsOf(q: Queue, target: string): set<string> {
    set rid | rid in q.replications && q.replications[rid].targetId == target
  }

  /** The jobs' part of removing a target: refused while one of its replications runs. */
  function RemoveTarget(q: Queue, target: string): Queue {
    var rids := ReplicationsOf(q, target);
    if exists j :: j in q.jobs && j.kind == Replicate && j.replicationId in rids && j.status == Running then q
    else
      q.(replications := map rid | rid in q.replications ::
           var r := q.replications[rid];
           if r.targetId != target then r
           else r.(enabled := false, status := if r.status == Promoted then Promoted else Paused),
         jobs := Each(q.jobs, (j: Job) => Cancel(j, rids)))
  }

  function RecoverJob(q: Queue, j: Job): Job {
    if j.kind != Replicate || j.status != Running then j
    else if j.replicationId !in q.replications then j.(status := Failed)
    else if j.recoveries + 1 >= MAX_RECOVERIES then j.(status := Failed, recoveries := j.recoveries + 1)
    else j.(status := Queued, recoveries := j.recoveries + 1)
  }

  function RecoverStatus(jobs: seq<Job>, rid: string, status: ReplicationStatus): ReplicationStatus {
    if jobs == [] then status
    else
      var before := RecoverStatus(jobs[..|jobs| - 1], rid, status);
      var j := jobs[|jobs| - 1];
      if j.kind != Replicate || j.status != Running || j.replicationId != rid then before
      else if j.recoveries + 1 >= MAX_RECOVERIES then Warning
      else if before == Replicating then Passive else before
  }

  /** The replications once the first `n` jobs have been looked at. */
  function RecoveredReplications(q: Queue, n: nat): map<string, Replication>
    requires n <= |q.jobs|
  {
    map rid | rid in q.replications ::
      q.replications[rid].(status := RecoverStatus(q.jobs[..n], rid, q.replications[rid].status))
  }

  /** The ids given another turn among the first `n` jobs. */
  function RecoveredIds(q: Queue, n: nat): seq<string>
    requires n <= |q.jobs|
  {
    if n == 0 then []
    else
      var j := q.jobs[n - 1];
      if j.kind == Replicate && j.status == Running && RecoverJob(q, j).status == Queued then RecoveredIds(q, n - 1) + [j.id]
      else RecoveredIds(q, n - 1)
  }

  /** `recover_interrupted_jobs`: what was running waits again, at most twice. */
  function Recover(q: Queue): Queue {
    q.(jobs := Each(q.jobs, (j: Job) => RecoverJob(q, j)), replications := RecoveredReplications(q, |q.jobs|))
  }

  predicate Conflicts(claims: set<(string, string)>, claim: (string, string)) {
    exists c :: c in claims && (c.0 == claim.0 || c.1 == claim.0 || c.0 == claim.1 || c.1 == claim.1)
  }

  /** `_update_replication`: set the replication's status and write the job back, adding it
      again if the list has dropped it meanwhile. */
  function WriteBack(q: Queue, rid: string, status: ReplicationStatus, j: Job): Queue
    requires rid in q.replications
  {
    var i := IndexOf(q.jobs, j.id);
    q.(replications := q.replications[rid := q.replications[rid].(status := status)],
       jobs := Last(if i < |q.jobs| then q.jobs[i := j] else q.jobs + [j]))
  }

  datatype Readiness = Ready | NotReady

  function ClaimFor(q: Queue, rid: string): (string, string)
    requires rid in q.replications && q.replications[rid].targetId in q.sources
  {
    (q.sources[q.replications[rid].targetId], q.replications[rid].destinationKey)
  }

  /** The start of `run_replication` for a given job. Unreadiness (busy, full or missing
      storage) and a conflicting claim leave everything as it was. A job id that names no
      job of this replication is noticed only after the claim was taken, and the claim is
      then not given back. The job's status is not looked at. */
  function Start(q: Queue, rid: string, jobId: string, readiness: Readiness): Queue {
    if rid !in q.replications || q.replications[rid].targetId !in q.sources then q
    else if !Startable(q.replications[rid]) || readiness == NotReady then q
    else if Conflicts(q.claims, ClaimFor(q, rid)) then q
    else
      var claim := ClaimFor(q, rid);
      var i := IndexOf(q.jobs, jobId);
      var claimed := q.(claims := q.claims + {claim});
      if i == |q.jobs| || q.jobs[i].kind != Replicate || q.jobs[i].replicationId != rid then claimed
      else
        var j := q.jobs[i].(status := Running);
        WriteBack(claimed, rid, Replicating, j).(flights := q.flights + [Flight(j, claim)])
  }

  predicate Starts(q: Queue, rid: string, jobId: string, readiness: Readiness) {
    Start(q, rid, jobId, readiness).flights != q.flights
  }

  /** The end of a run, from the run's own copy of its job. */
  function Finish(q: Queue, k: nat, ok: bool): Queue {
    if k >= |q.flights| then q
    else
      var f := q.flights[k];
      var landed := q.(flights := q.flights[..k] + q.flights[k + 1..], claims := q.claims - {f.claim});
      if f.job.replicationId !in q.replications then landed
      else WriteBack(landed, f.job.replicationId, if ok then Passive else Warning,
                     f.job.(status := if ok then Completed else Failed))
  }

  /** The worker process dies: what it held in memory is gone. */
  function Crash(q: Queue): Queue {
    q.(claims := {}, flights := [])
  }

  function Promote(q: Queue, rid: string): Queue {
    if rid !in q.replications then q
    else q.(replications := q.replications[rid := q.replications[rid].(enabled := false, status := Promoted)])
  }

  function BeginMaintenance(q: Queue, id: string): Queue {
    q.(jobs := Last(q.jobs + [Job(id, Maintain, "", Running, 0)]))
  }

  function EndMaintenance(q: Queue, id: string, ok: bool): Queue {
    q.(jobs := Each(q.jobs, (j: Job) =>
      if j.id == id then j.(kind := Maintain, status := if ok then Completed else Failed) else j))
  }

  /******* What every run keeps *******/

  ghost predicate DistinctIds(jobs: seq<Job>) {
    forall i, j :: 0 <= i < j < |jobs| ==> jobs[i].id != jobs[j].id
  }

  ghost predicate OneActivePerReplication(jobs: seq<Job>) {
    forall i, j :: 0 <= i < j < |jobs| ==>
      !(jobs[i].kind == Replicate && jobs[j].kind == Replicate && jobs[i].replicationId == jobs[j].replicationId
        && IsActive(jobs[i]) && IsActive(jobs[j]))
  }

  ghost predicate ClaimsApart(claims: set<(string, string)>) {
    forall c, d :: c in claims && d in claims && c != d ==>
      c.0 != d.0 && c.0 != d.1 && c.1 != d.0 && c.1 != d.1
  }

  /** How often each job ever created has entered `Running`, and what its record allows. */
  ghost predicate EntriesBounded(jobs: seq<Job>, entered: map<string, nat>) {
    && (forall j :: j in jobs ==> j.id in entered)
    && (forall id :: id in entered ==> entered[id] <= MAX_RECOVERIES)
    && (forall j :: j in jobs && j.kind == Replicate && j.status == Queued ==>
          j.recoveries < MAX_RECOVERIES && entered[j.id] <= j.recoveries)
    && (forall j :: j in jobs && j.kind == Replicate && j.status == Running ==>
          j.recoveries < MAX_RECOVERIES && entered[j.id] <= j.recoveries + 1)
  }

  ghost predicate FlightsKnown(flights: seq<Flight>, entered: map<string, nat>) {
    forall f :: f in flights ==> f.job.id in entered && f.job.kind == Replicate && f.job.status == Running
  }

  ghost predicate Safe(q: Queue, entered: map<string, nat>) {
    && DistinctIds(q.jobs) && |q.jobs| <= MAX_JOBS
    && OneActivePerReplication(q.jobs)
    && ClaimsApart(q.claims)
    && EntriesBounded(q.jobs, entered)
    && FlightsKnown(q.flights, entered)
  }

  datatype Step =
    | DoEnqueue(rid: string, id: string)
    | DoSetPolicy(rid: string, enabled: bool)
    | DoRemoveTarget(target: string)
    | DoRecover(cleanedUp: bool)
    | DoStart(rid: string, jobId: string, readiness: Readiness)
    | DoFinish(flight: nat, ok: bool)
    | DoCrash
    | DoPromote(rid: string)
    | DoBeginMaintenance(id: string)
    | DoEndMaintenance(id: string, ok: bool)

  function Next(q: Queue, step: Step): Queue {
    match step
    case DoEnqueue(rid, id) => Enqueue(q, rid, id)
    case DoSetPolicy(rid, enabled) => SetPolicy(q, rid, enabled)
    case DoRemoveTarget(target) => RemoveTarget(q, target)
    case DoRecover(cleanedUp) => if cleanedUp then Recover(q) else q
    case DoStart(rid, jobId, readiness) => Start(q, rid, jobId, readiness)
    case DoFinish(flight, ok) => Finish(q, flight, ok)
    case DoCrash => Crash(q)
    case DoPromote(rid) => Promote(q, rid)
    case DoBeginMaintenance(id) => BeginMaintenance(q, id)
    case DoEndMaintenance(id, ok) => EndMaintenance(q, id, ok)
  }

  /** The queue after the first `n` steps. */
  function Steps(q: Queue, steps: seq<Step>, n: nat): Queue
    requires n <= |steps|
  {
    if n == 0 then q else Next(Steps(q, steps, n - 1), steps[n - 1])
  }

  /** The books the model keeps: one entry per id ever made, counted up at each start. */
  function Entered(q: Queue, entered: map<string, nat>, step: Step): map<string, nat> {
    match step
    case DoEnqueue(_, id) => if id in entered then entered else entered[id := 0]
    case DoBeginMaintenance(id) => if id in entered then entered else entered[id := 0]
    case DoStart(rid, jobId, readiness) =>
      if Starts(q, rid, jobId, readiness) && jobId in entered then entered[jobId := entered[jobId] + 1] else entered
    case _ => entered
  }

  /** New ids are fresh, and a start takes a job that is queued at that moment, as the queue worker
      picks it. */
  predicate Allowed(q: Queue, entered: map<string, nat>, step: Step) {
    match step
    case DoEnqueue(_, id) => id !in entered
    case DoBeginMaintenance(id) => id !in entered
    case DoStart(_, jobId, _) => exists j :: j in q.jobs && j.id == jobId && j.status == Queued
    case _ => true
  }
}
