/**
 The workspace updater: one run takes a fixed sequence of persisted states and commands, stops at
 the first failure, and leaves behind a status from which the running release can be told.
 Every command and every write may fail, and the process may die anywhere.
 */
module Workspace {
  import opened Common

  datatype State =
    | Requested | Locked | Resolved | Verified | Preflight | BackedUp | MigrationValidated | Migrating | Switching
    | Readiness | Succeeded | Failed | ManualRecoveryRequired

  datatype Command = InspectWeb | InspectMigrator | Dump | Probe | Migrate | Switch | HealthCheck

  type Digests = map<string, string>

  /** The status file's contents, as far as the next run and its readers use them. */
  datatype Status = Status(
    state: State, sourceRelease: Option<string>, targetRelease: Option<string>,
    targetDigests: Digests, runningDigests: Digests, errorCode: Option<string>)

  datatype Release = Release(releaseId: string, digests: Digests)

  /** What a run does that others can see: status files written, commands that ran to success, and
      commands that were issued but did not. */
  datatype Act = Wrote(state: State) | Ran(command: Command) | Tried(command: Command)

  const STEPS: nat := 18

  /** The acts of an update that fails nowhere. */
  function Script(i: nat): Act
    requires i < STEPS
  {
    match i
    case 0 => Wrote(Requested)
    case 1 => Wrote(Locked)
    case 2 => Wrote(Resolved)
    case 3 => Wrote(Verified)
    case 4 => Wrote(Preflight)
    case 5 => Ran(InspectWeb)
    case 6 => Ran(InspectMigrator)
    case 7 => Ran(Dump)
    case 8 => Wrote(BackedUp)
    case 9 => Ran(Probe)
    case 10 => Wrote(MigrationValidated)
    case 11 => Wrote(Migrating)
    case 12 => Ran(Migrate)
    case 13 => Wrote(Switching)
    case 14 => Ran(Switch)
    case 15 => Wrote(Readiness)
    case 16 => Ran(HealthCheck)
    case _ => Wrote(Succeeded)
  }

  function Prefix(n: nat): (acts: seq<Act>)
    requires n <= STEPS
    ensures |acts| == n
  {
    if n == 0 then [] else Prefix(n - 1) + [Script(n - 1)]
  }

  /** A run that got through `n` steps and perhaps tried the next one. */
  function Partial(n: nat, tried: bool): seq<Act>
    requires n <= STEPS && (tried ==> n < STEPS && Script(n).Ran?)
  {
    if tried then Prefix(n) + [Tried(Script(n).command)] else Prefix(n)
  }

  ghost predicate At(acts: seq<Act>, n: nat, tried: bool) {
    n <= STEPS && (tried ==> n < STEPS && Script(n).Ran?) && acts == Partial(n, tried)
  }

  /** Failures the run reports: a command, the verification of the release, or a missing bundle
      or bad bind address right after it. */
  predicate MayReport(n: nat, tried: bool) { tried || n == 3 || n == 4 }

  predicate Live(n: nat) { n >= 12 }

  function Verdict(n: nat): State { if Live(n) then ManualRecoveryRequired else Failed }

  /** What one run can leave behind. */
  ghost predicate Trace(acts: seq<Act>) {
    exists n: nat, tried: bool, reported: bool :: TraceOf(acts, n, tried, reported)
  }

  ghost predicate TraceOf(acts: seq<Act>, n: nat, tried: bool, reported: bool) {
    && n <= STEPS && (tried ==> n < STEPS && Script(n).Ran?)
    && (reported ==> MayReport(n, tried))
    && acts == if reported then Partial(n, tried) + [Wrote(Verdict(n))] else Partial(n, tried)
  }

  datatype Outcome = Done | Reported(code: string) | Broke

  /** The digests the status file reports as running. */
  function Shown(status: Option<Status>): Digests {
    if status.Some? then status.value.runningDigests else map[]
  }

  /** The status of a run that switched to a release. */
  ghost predicate Switched(status: Status, release: Release) {
    && status.targetRelease == Some(release.releaseId) && status.targetDigests == release.digests
    && status.runningDigests == release.digests
  }

  lemma SwitchedTo(status: Status, release: Release)
    requires status.targetRelease == Some(release.releaseId) && status.targetDigests == release.digests
    requires Shown(Some(status)) == release.digests
    ensures Switched(status, release)
  {
  }

  class Updater {
    var status: Option<Status>
    /** The record of the run in progress. */
    var run: Status
    /** What it has done, and what the runs before it did. */
    ghost var acts: seq<Act>
    ghost var runs: seq<seq<Act>>
    /** What the last run whose success was written switched to; empty before the first. */
    ghost var inService: Digests
    /** Whether anything has failed so far. */
    ghost var trouble: bool

    constructor ()
      ensures Shown(status) == inService && status == None && runs == [] && !trouble
    {
      status, acts, runs, inService, trouble := None, [], [], map[], false;
      run := Status(Requested, None, None, map[], map[], None);
    }

    /** Write the status file, then the audit line; either may raise, and then the run is over. */
    method Persist(state: State, error: Option<string>) returns (ok: bool)
      modifies this
      ensures run == old(run).(state := state, errorCode := error)
      ensures (!ok && status == old(status) && acts == old(acts) && inService == old(inService))
           || (status == Some(run) && acts == old(acts) + [Wrote(state)]
               && inService == if state == Succeeded then run.runningDigests else old(inService))
      ensures runs == old(runs) && trouble == (old(trouble) || !ok)
    {
      run := run.(state := state, errorCode := error);
      var written: bool := *;
      if !written { trouble := true; return false; }
      status := Some(run);
      acts := acts + [Wrote(state)];
      if state == Succeeded { inService := run.runningDigests; }
      ok := *;
      trouble := trouble || !ok;
    }

    /** A step of the script that writes its state. */
    method Reach(ghost n: nat, state: State) returns (ok: bool, ghost k: nat)
      requires n < STEPS && Script(n) == Wrote(state) && At(acts, n, false)
      modifies this
      ensures n <= k <= n + 1 && At(acts, k, false) && (ok ==> k == n + 1 && status == Some(run))
      ensures Shown(status) == if k == n + 1 then run.runningDigests else old(Shown(status))
      ensures runs == old(runs) && run == old(run).(state := state, errorCode := None)
      ensures trouble == (old(trouble) || !ok)
      ensures inService == if state == Succeeded && k == n + 1 then run.runningDigests else old(inService)
    {
      ok := Persist(state, None);
      k := if acts == Prefix(n) then n else n + 1;
    }

    /** A step of the script that issues its command. */
    method Issue(ghost n: nat, c: Command) returns (o: Outcome, ghost k: nat, ghost tried: bool)
      requires n < STEPS && Script(n) == Ran(c) && At(acts, n, false)
      modifies this`acts, this`trouble
      ensures At(acts, k, tried) && if o.Done? then k == n + 1 && !tried else k == n && tried
      ensures trouble == (old(trouble) || !o.Done?)
    {
      o := Attempt();
      acts := acts + [if o.Done? then Ran(c) else Tried(c)];
      k, tried := if o.Done? then n + 1 else n, !o.Done?;
    }

    /** Whatever else can go wrong: reading the release, the bundle, the bind address, a file. */
    method Attempt() returns (o: Outcome)
      modifies this`trouble
      ensures trouble == (old(trouble) || !o.Done?)
    {
      var code: string := *;
      o := Done;
      if * { o := Reported(code); } else if * { o := Broke; }
      trouble := trouble || !o.Done?;
    }

    /** A run's first part: the release is looked up and verified. */
    method Resolve(release: Release) returns (o: Outcome, ghost n: nat)
      requires Shown(status) == run.runningDigests && At(acts, 1, false)
      modifies this
      ensures runs == old(runs) && 1 <= n <= 3 && At(acts, n, false)
      ensures o.Done? ==> n == 3 && run.targetDigests == release.digests && run.targetRelease == Some(release.releaseId)
      ensures run.sourceRelease == old(run.sourceRelease)
      ensures o.Reported? ==> MayReport(n, false)
      ensures Shown(status) == run.runningDigests == old(run.runningDigests) && inService == old(inService)
      ensures old(trouble) ==> trouble
      ensures !trouble ==> o.Done?
    {
      assert Script(1) == Wrote(Locked) && Script(2) == Wrote(Resolved) && MayReport(3, false);
      hide *;
      o, n := Broke, 1;
      label guarded: {
        var ok;
        ok, n := Reach(1, Locked);
        if !ok { break guarded; }
        ok, n := Reach(2, Resolved);
        if !ok { break guarded; }
        o := Attempt(); // verifying the release
        if !o.Done? { break guarded; }
        run := run.(targetRelease := Some(release.releaseId), targetDigests := release.digests);
      }
    }

    /** What the run needs is found. */
    method Prepare() returns (o: Outcome, ghost n: nat)
      requires Shown(status) == run.runningDigests && At(acts, 3, false)
      modifies this
      ensures runs == old(runs) && 3 <= n <= 5 && At(acts, n, false)
      ensures o.Done? ==> n == 5 && run.targetDigests == old(run.targetDigests)
      ensures run.sourceRelease == old(run.sourceRelease) && run.targetRelease == old(run.targetRelease)
      ensures o.Reported? ==> MayReport(n, false)
      ensures Shown(status) == run.runningDigests == old(run.runningDigests) && inService == old(inService)
      ensures old(trouble) ==> trouble
      ensures !trouble ==> o.Done?
    {
      assert Script(3) == Wrote(Verified) && Script(4) == Wrote(Preflight) && MayReport(4, false);
      hide *;
      o, n := Broke, 3;
      label guarded: {
        var ok;
        ok, n := Reach(3, Verified);
        if !ok { break guarded; }
        o := Attempt(); // finding the bundle and the bind address
        if !o.Done? { break guarded; }
        o := Broke;
        ok, n := Reach(4, Preflight);
        if ok { o := Done; }
      }
    }

    /** A run's next part: the data is saved and the migration tried on a copy. */
    method Secure() returns (o: Outcome, ghost n: nat, ghost tried: bool)
      requires Shown(status) == run.runningDigests && At(acts, 5, false)
      modifies this
      ensures runs == old(runs) && 5 <= n <= 11 && At(acts, n, tried)
      ensures o.Done? ==> n == 11 && !tried
      ensures o.Reported? ==> tried
      ensures Shown(status) == run.runningDigests == old(run.runningDigests) && inService == old(inService)
      ensures run.targetDigests == old(run.targetDigests)
      ensures run.sourceRelease == old(run.sourceRelease) && run.targetRelease == old(run.targetRelease)
      ensures old(trouble) ==> trouble
      ensures !trouble ==> o.Done?
    {
      assert Script(5) == Ran(InspectWeb) && Script(6) == Ran(InspectMigrator) && Script(7) == Ran(Dump);
      assert Script(8) == Wrote(BackedUp) && Script(9) == Ran(Probe) && Script(10) == Wrote(MigrationValidated);
      hide *;
      label guarded: {
        var ok;
        o, n, tried := Issue(5, InspectWeb);
        if !o.Done? { break guarded; }
        o, n, tried := Issue(6, InspectMigrator);
        if !o.Done? { break guarded; }
        o, n, tried := Issue(7, Dump);
        if !o.Done? { break guarded; }
        var copied: bool := *; // the dump, to where the probe reads it
        o := Broke;
        if !copied { trouble := true; break guarded; }
        ok, n := Reach(8, BackedUp);
        if !ok { break guarded; }
        o, n, tried := Issue(9, Probe);
        if !o.Done? { break guarded; }
        o := Broke;
        ok, n := Reach(10, MigrationValidated);
        if ok { o := Done; }
      }
    }

    /** From here on any failure calls for manual recovery: the live migration. */
    method GoLive() returns (o: Outcome, ghost n: nat, ghost tried: bool)
      requires Shown(status) == run.runningDigests && At(acts, 11, false)
      modifies this
      ensures runs == old(runs) && 11 <= n <= 14 && At(acts, n, tried)
      ensures o.Done? ==> n == 14 && !tried
      ensures o.Reported? ==> tried && n >= 12
      ensures Shown(status) == run.runningDigests == old(run.runningDigests) && inService == old(inService)
      ensures run.targetDigests == old(run.targetDigests)
      ensures run.sourceRelease == old(run.sourceRelease) && run.targetRelease == old(run.targetRelease)
      ensures old(trouble) ==> trouble
      ensures !trouble ==> o.Done?
    {
      hide Prefix, Partial, At, Shown;
      o, tried, n := Broke, false, 11;
      label guarded: {
        var ok;
        ok, n := Reach(11, Migrating);
        if !ok { break guarded; }
        o, n, tried := Issue(12, Migrate);
        if !o.Done? { break guarded; }
        o := Broke;
        ok, n := Reach(13, Switching);
        if ok { o := Done; }
      }
    }

    /** A run's last part: the switch to the new release, which counts once it is healthy. */
    method SwitchOver() returns (o: Outcome, ghost n: nat, ghost tried: bool)
      requires Shown(status) == run.runningDigests && At(acts, 14, false)
      modifies this
      ensures runs == old(runs) && 14 <= n <= STEPS && At(acts, n, tried)
      ensures o.Done? ==> n == STEPS && !tried && status == Some(run) && run.state == Succeeded && run.errorCode == None
      ensures run.sourceRelease == old(run.sourceRelease) && run.targetRelease == old(run.targetRelease)
      ensures run.targetDigests == old(run.targetDigests)
      ensures o.Reported? ==> tried && run.runningDigests == old(run.runningDigests)
      ensures inService == if n == STEPS then old(run.targetDigests) else old(inService)
      ensures Shown(status) == if n == STEPS then old(run.targetDigests) else old(run.runningDigests)
      ensures old(trouble) ==> trouble
      ensures !trouble ==> o.Done?
    {
      assert Script(14) == Ran(Switch) && Script(15) == Wrote(Readiness);
      assert Script(16) == Ran(HealthCheck) && Script(17) == Wrote(Succeeded);
      hide *;
      label guarded: {
        var ok;
        o, n, tried := Issue(14, Switch);
        if !o.Done? { break guarded; }
        o := Broke;
        ok, n := Reach(15, Readiness);
        if !ok { break guarded; }
        o, n, tried := Issue(16, HealthCheck);
        if !o.Done? { break guarded; }
        o := Broke;
        run := run.(runningDigests := run.targetDigests);
        ok, n := Reach(17, Succeeded);
        if ok { o := Done; }
      }
    }

    /** The status file's contents; one that cannot be read tells nothing. */
    method ReadStatus() returns (current: Option<Status>, ghost read: bool)
      ensures current == if read then status else None
    {
      var readable: bool := *;
      current, read := if readable then status else None, readable;
    }

    /** One update. It is refused, without a trace, to all but administrators and while another runs. `read`
        says whether it could read the status file. What is reported as running is then right exactly when
        the run succeeded; or was right before, and the run could read it or wrote nothing; or nothing has
        ever been switched to. */
    method RunUpdate(admin: bool, lockFree: bool, release: Release) returns (r: Result<State>, ghost read: bool)
      modifies this
      ensures !admin || !lockFree ==> r.Error? && runs == old(runs) && status == old(status) && inService == old(inService)
      ensures admin && lockFree ==>
                && |runs| == |old(runs)| + 1 && runs[..|old(runs)|] == old(runs) && Trace(runs[|old(runs)|])
                && inService == if Wrote(Succeeded) in runs[|old(runs)|] then release.digests else old(inService)
      ensures admin && lockFree ==>
                var mine := runs[|old(runs)|];
                && Shown(status) == (if Wrote(Succeeded) in mine then release.digests
                                     else if mine == [] || read then old(Shown(status)) else map[])
                && (Shown(status) == inService <==>
                      || Wrote(Succeeded) in mine
                      || (if mine == [] || read then old(Shown(status) == inService) else old(inService) == map[]))
      ensures r.Ok? ==> status.Some? && status.value.state == r.value && acts != [] && acts[|acts| - 1] == Wrote(r.value)
      ensures r.Ok? ==>
                && status.value.sourceRelease == (if read && old(status).Some? then old(status).value.targetRelease else None)
                && (status.value.errorCode.None? <==> r.value == Succeeded)
      ensures r == Ok(Succeeded) ==> Switched(status.value, release)
      ensures r.Ok? ==> runs == old(runs) + [acts] && r.value in {Succeeded, Failed, ManualRecoveryRequired}
      ensures admin && lockFree && !trouble ==> r == Ok(Succeeded)
    {
      read := true;
      if !admin { return Error("administrator-required"), read; }
      if !lockFree { return Error("update-already-running"), read; }
      acts := [];
      r, read := Guarded(release);
      runs := runs + [acts];
    }

    /** The guarded part of a run: everything after the first state. */
    method Attempted(release: Release) returns (o: Outcome, live: bool, ghost n: nat, ghost tried: bool)
      requires Shown(status) == run.runningDigests && At(acts, 1, false)
      modifies this
      ensures runs == old(runs) && n >= 1 && At(acts, n, tried)
      ensures o.Done? ==> n == STEPS && !tried && status == Some(run) && run.state == Succeeded && run.errorCode == None
      ensures o.Done? ==> run.targetRelease == Some(release.releaseId) && run.targetDigests == release.digests
      ensures run.sourceRelease == old(run.sourceRelease)
      ensures o.Reported? ==>
                MayReport(n, tried) && live == Live(n) && run.runningDigests == old(run.runningDigests) && n < STEPS
      ensures inService == if n == STEPS then release.digests else old(inService)
      ensures Shown(status) == if n == STEPS then release.digests else old(run.runningDigests)
      ensures old(trouble) ==> trouble
      ensures !trouble ==> o.Done?
    {
      hide Prefix, Partial, Shown;
      live := false;
      o, n := Resolve(release);
      tried := false;
      if o.Done? {
        o, n := Prepare();
      }
      if o.Done? {
        o, n, tried := Secure();
      }
      if o.Done? {
        live := true;
        o, n, tried := GoLive();
      }
      if o.Done? {
        o, n, tried := SwitchOver();
      }
    }

    /** A run once it holds the lock. */
    method Guarded(release: Release) returns (r: Result<State>, ghost read: bool)
      requires acts == []
      modifies this
      ensures runs == old(runs) && Trace(acts)
      ensures inService == if Wrote(Succeeded) in acts then release.digests else old(inService)
      ensures Shown(status) == if Wrote(Succeeded) in acts then release.digests
                               else if acts == [] || read then old(Shown(status)) else map[]
      ensures r.Ok? ==> status.Some? && status.value.state == r.value && acts != [] && acts[|acts| - 1] == Wrote(r.value)
      ensures r.Ok? ==>
                && status.value.sourceRelease == (if read && old(status).Some? then old(status).value.targetRelease else None)
                && (status.value.errorCode.None? <==> r.value == Succeeded)
      ensures r == Ok(Succeeded) ==> Switched(status.value, release)
      ensures r.Ok? ==> r.value in {Succeeded, Failed, ManualRecoveryRequired}
      ensures old(trouble) ==> trouble
      ensures !trouble ==> r == Ok(Succeeded)
    {
      var current;
      current, read := ReadStatus();
      Beginning(status);
      Beginning(current);
      hide *;
      run := Status(
        Requested, if current.Some? then current.value.targetRelease else None, None, map[],
        if current.Some? then current.value.runningDigests else map[], None);
      var ok;
      ghost var n;
      ok, n := Reach(0, Requested);
      TracesOf(acts, n, false);
      if ok { r := Underway(release); } else { r := Error("status not written"); }
    }

    /** The run after its first state. */
    method Underway(release: Release) returns (r: Result<State>)
      requires Shown(status) == run.runningDigests && At(acts, 1, false)
      modifies this
      ensures runs == old(runs) && Trace(acts) && acts != []
      ensures inService == if Wrote(Succeeded) in acts then release.digests else old(inService)
      ensures Shown(status) == if Wrote(Succeeded) in acts then release.digests else old(run.runningDigests)
      ensures r.Ok? ==> status.Some? && status.value.state == r.value && acts[|acts| - 1] == Wrote(r.value)
      ensures r.Ok? ==> status.value.sourceRelease == old(run.sourceRelease) && (status.value.errorCode.None? <==> r.value == Succeeded)
      ensures r == Ok(Succeeded) ==> Switched(status.value, release)
      ensures r.Ok? ==> r.value in {Succeeded, Failed, ManualRecoveryRequired}
      ensures old(trouble) ==> trouble
      ensures !trouble ==> r == Ok(Succeeded)
    {
      hide *;
      var o, live;
      ghost var n, tried;
      o, live, n, tried := Attempted(release);
      TracesOf(acts, n, tried);
      if o.Broke? {
        r := Error("run broken off");
      } else if o.Done? {
        SwitchedTo(run, release);
        r := Ok(Succeeded);
      } else {
        Ending(run, n);
        var ok := Persist(if live then ManualRecoveryRequired else Failed, Some(o.code));
        r := if ok then Ok(run.state) else Error("verdict not written");
      }
    }
  }

  lemma Beginning(status: Option<Status>)
    ensures At([], 0, false) && Script(0) == Wrote(Requested)
    ensures Shown(status) == if status.Some? then status.value.runningDigests else map[]
  {
  }

  lemma Ending(run: Status, n: nat)
    ensures forall state, error :: Shown(Some(run.(state := state, errorCode := error))) == run.runningDigests
    ensures Verdict(n) == if Live(n) then ManualRecoveryRequired else Failed
  {
  }

  /** The acts of a partial run, alone and with its verdict, are a run's, and report success only at the end. */
  lemma TracesOf(acts: seq<Act>, n: nat, tried: bool)
    requires At(acts, n, tried)
    ensures Trace(acts) && (Wrote(Succeeded) in acts <==> n == STEPS) && (acts == [] <==> n == 0 && !tried)
    ensures n == STEPS ==> acts != [] && acts[|acts| - 1] == Wrote(Succeeded)
    ensures MayReport(n, tried) ==> Trace(acts + [Wrote(Verdict(n))]) && Wrote(Succeeded) !in acts + [Wrote(Verdict(n))]
  {
    KeyActs(n);
    assert n == STEPS ==> Prefix(n)[n - 1] == Script(n - 1);
    hide Prefix;
    assert TraceOf(acts, n, tried, false);
    if MayReport(n, tried) {
      assert TraceOf(acts + [Wrote(Verdict(n))], n, tried, true);
    }
  }

  /** Where the acts that tell runs apart are in the script. */
  lemma {:induction false} KeyActs(n: nat)
    requires n <= STEPS
    ensures Wrote(Migrating) in Prefix(n) <==> n >= 12
    ensures Wrote(Succeeded) in Prefix(n) <==> n == STEPS
    ensures Wrote(Failed) !in Prefix(n) && Wrote(ManualRecoveryRequired) !in Prefix(n)
  {
    if n > 0 {
      KeyActs(n - 1);
      var front, last := Prefix(n - 1), Script(n - 1);
      assert Prefix(n) == front + [last];
      hide Prefix;
      assert forall a :: a in front + [last] <==> a in front || a == last;
    }
  }

  /******* What every run's acts satisfy *******/

  lemma {:induction false} PrefixAt(n: nat, i: nat)
    requires i < n <= STEPS
    ensures Prefix(n)[i] == Script(i)
  {
    if i < n - 1 { PrefixAt(n - 1, i); }
  }

  /** The script so far, then perhaps a command that did not succeed, then perhaps the verdict. */
  lemma Shape(acts: seq<Act>, n: nat, tried: bool, reported: bool)
    requires TraceOf(acts, n, tried, reported)
    ensures |acts| == n + (if tried then 1 else 0) + (if reported then 1 else 0)
    ensures forall i: nat :: i < n ==> acts[i] == Script(i)
    ensures tried ==> acts[n] == Tried(Script(n).command)
    ensures reported ==> acts[|acts| - 1] == Wrote(Verdict(n))
  {
    forall i: nat | i < n ensures acts[i] == Script(i) { PrefixAt(n, i); }
  }

  predicate Touches(a: Act) {
    a in {Ran(Migrate), Tried(Migrate), Ran(Switch), Tried(Switch)}
  }

  /** The live migration is tried only after the dump was taken and its success recorded, the probe
      passed on a copy, and the attempt announced; the switch only after the migration succeeded. */
  lemma LiveOnlyAfterBackup(acts: seq<Act>, i: nat)
    requires Trace(acts) && i < |acts| && Touches(acts[i])
    ensures i >= 12 && acts[7] == Ran(Dump) && acts[8] == Wrote(BackedUp) && acts[9] == Ran(Probe) && acts[11] == Wrote(Migrating)
    ensures acts[i] in {Ran(Switch), Tried(Switch)} ==> i >= 14 && acts[12] == Ran(Migrate) && acts[13] == Wrote(Switching)
  {
    var n: nat, tried, reported :| TraceOf(acts, n, tried, reported);
    assert n <= STEPS && (tried ==> n < STEPS && Script(n).Ran?);
    Shape(acts, n, tried, reported);
    Landmarks();
    hide *;
    if i < n {
      WhereTouched(i, Script(i));
    } else {
      NeverTouched(Wrote(Verdict(n)));
      WhereTouched(n, Tried(Script(n).command));
    }
  }

  lemma Landmarks()
    ensures Script(7) == Ran(Dump) && Script(8) == Wrote(BackedUp) && Script(9) == Ran(Probe)
    ensures Script(11) == Wrote(Migrating) && Script(12) == Ran(Migrate) && Script(13) == Wrote(Switching)
  {
  }

  lemma NeverTouched(a: Act)
    requires a.Wrote?
    ensures !Touches(a)
  {
  }

  /** The script has the migration and the switch at one place each. */
  lemma WhereTouched(i: nat, a: Act)
    requires i < STEPS && (a == Script(i) || (Script(i).Ran? && a == Tried(Script(i).command))) && Touches(a)
    ensures if a in {Ran(Migrate), Tried(Migrate)} then i == 12 else i == 14
  {
  }

  /** The verdict is last, and the announcement of the migration tells which. */
  lemma VerdictOf(acts: seq<Act>, n: nat, tried: bool, reported: bool)
    requires TraceOf(acts, n, tried, reported)
    ensures Wrote(Failed) in acts <==> reported && n < 12
    ensures Wrote(ManualRecoveryRequired) in acts <==> reported && n >= 12
    ensures Wrote(Migrating) in acts <==> n >= 12
    ensures Wrote(Succeeded) in acts <==> n == STEPS
  {
    KeyActs(n);
    hide Prefix;
  }

  /** A verdict is `failed` exactly when the run had not announced the migration, and then neither
      the live migration nor the switch was even tried. */
  lemma FailedLeavesTheLiveSystemAlone(acts: seq<Act>)
    requires Trace(acts) && (Wrote(Failed) in acts || Wrote(ManualRecoveryRequired) in acts)
    ensures Wrote(Failed) in acts <==> Wrote(Migrating) !in acts
    ensures Wrote(Failed) in acts ==> forall i :: 0 <= i < |acts| ==> !Touches(acts[i])
    ensures acts[|acts| - 1] == Wrote(if Wrote(Failed) in acts then Failed else ManualRecoveryRequired)
  {
    var n: nat, tried, reported :| TraceOf(acts, n, tried, reported);
    VerdictOf(acts, n, tried, reported);
    Shape(acts, n, tried, reported);
    hide TraceOf;
    forall i | 0 <= i < |acts|
      ensures Touches(acts[i]) ==> Wrote(Migrating) in acts
    {
      if Touches(acts[i]) { LiveOnlyAfterBackup(acts, i); }
    }
    hide *;
  }

  /** Everything an update does when nothing fails, in order. */
  ghost function Everything(): (acts: seq<Act>)
    ensures |acts| == 18
  {
    [Wrote(Requested), Wrote(Locked), Wrote(Resolved), Wrote(Verified), Wrote(Preflight),
     Ran(InspectWeb), Ran(InspectMigrator), Ran(Dump), Wrote(BackedUp), Ran(Probe), Wrote(MigrationValidated),
     Wrote(Migrating), Ran(Migrate), Wrote(Switching), Ran(Switch), Wrote(Readiness), Ran(HealthCheck), Wrote(Succeeded)]
  }

  lemma ScriptIsEverything(i: nat)
    requires i < STEPS
    ensures Script(i) == Everything()[i]
  {
  }

  /** Every run does the first so many of these, then perhaps tries the next command, and then perhaps
      writes a verdict; nothing else. */
  lemma RunsAreBeginnings(acts: seq<Act>)
    requires Trace(acts)
    ensures exists n: nat :: n <= 18 && Begins(acts, n)
  {
    var n: nat, tried, reported :| TraceOf(acts, n, tried, reported);
    Shape(acts, n, tried, reported);
    assert n <= 18 && (tried ==> n < 18 && Script(n).Ran?);
    assert Verdict(n) in {Failed, ManualRecoveryRequired};
    if tried { ScriptIsEverything(n); }
    hide *;
    forall i: nat | i < n
      ensures acts[i] == Everything()[i]
    {
      ScriptIsEverything(i);
    }
    ShapeBegins(acts, n, tried, reported, Verdict(n));
  }

  lemma ShapeBegins(acts: seq<Act>, n: nat, tried: bool, reported: bool, verdict: State)
    requires n <= 18 && |acts| == n + (if tried then 1 else 0) + (if reported then 1 else 0)
    requires forall i: nat :: i < n ==> acts[i] == Everything()[i]
    requires tried ==> n < 18 && Everything()[n].Ran? && acts[n] == Tried(Everything()[n].command)
    requires verdict in {Failed, ManualRecoveryRequired} && (reported ==> acts[|acts| - 1] == Wrote(verdict))
    ensures Begins(acts, n)
  {
    hide Everything;
  }

  ghost predicate Begins(acts: seq<Act>, n: nat)
    requires n <= 18
  {
    && n <= |acts| <= n + 2 && acts[..n] == Everything()[..n]
    && forall i :: n <= i < |acts| ==>
         || (i == |acts| - 1 && acts[i] in {Wrote(Failed), Wrote(ManualRecoveryRequired)})
         || (i == n < 18 && Everything()[n].Ran? && acts[i] == Tried(Everything()[n].command))
  }

  /** Success is reported only when every command succeeded, the health check last. */
  lemma SucceededMeansEverything(acts: seq<Act>)
    requires Trace(acts) && Wrote(Succeeded) in acts
    ensures acts == Everything()
  {
    var n: nat, tried, reported :| TraceOf(acts, n, tried, reported);
    VerdictOf(acts, n, tried, reported);
    Shape(acts, n, tried, reported);
    forall i: nat | i < STEPS
      ensures acts[i] == Everything()[i]
    {
      ScriptIsEverything(i);
    }
    hide Trace, Script, Everything, Partial, Prefix;
  }

  /******* The persisted states *******/

  function States(acts: seq<Act>): seq<State> {
    if acts == [] then []
    else
      var rest, last := States(acts[..|acts| - 1]), acts[|acts| - 1];
      if last.Wrote? then rest + [last.state] else rest
  }

  /** The first `k` of the non-terminal states and `succeeded`, as they are declared. */
  function Declared(k: nat): (states: seq<State>)
    requires k <= 11
    ensures |states| == k
  {
    [Requested, Locked, Resolved, Verified, Preflight, BackedUp, MigrationValidated, Migrating, Switching, Readiness,
     Succeeded][..k]
  }

  /** How many states the first `n` steps write. */
  function Written(n: nat): (k: nat)
    requires n <= STEPS
    ensures k <= 11
  {
    if n <= 5 then n else if n <= 8 then 5 else if n <= 10 then 6 else if n == 11 then 7
    else if n <= 13 then 8 else if n <= 15 then 9 else if n <= 17 then 10 else 11
  }

  lemma StatesOfOneMore(acts: seq<Act>, a: Act)
    ensures States(acts + [a]) == if a.Wrote? then States(acts) + [a.state] else States(acts)
  {
  }

  lemma NextState(n: nat)
    requires n < STEPS
    ensures Declared(Written(n + 1)) ==
            if Script(n).Wrote? then Declared(Written(n)) + [Script(n).state] else Declared(Written(n))
  {
  }

  lemma NothingWritten()
    ensures States(Prefix(0)) == Declared(Written(0))
  {
  }

  lemma PrefixStep(n: nat)
    requires n < STEPS
    ensures Prefix(n + 1) == Prefix(n) + [Script(n)]
  {
    hide Script;
  }

  lemma {:induction false} StatesOfPrefix(n: nat)
    requires n <= STEPS
    ensures States(Prefix(n)) == Declared(Written(n))
  {
    hide *;
    if n == 0 {
      NothingWritten();
    } else {
      PrefixStep(n - 1);
      StatesOfPrefix(n - 1);
      StatesOfOneMore(Prefix(n - 1), Script(n - 1));
      NextState(n - 1);
    }
  }

  lemma StatesOfTrace(acts: seq<Act>, n: nat, tried: bool, reported: bool)
    requires TraceOf(acts, n, tried, reported)
    ensures States(acts) == if reported then Declared(Written(n)) + [Verdict(n)] else Declared(Written(n))
  {
    StatesOfPrefix(n);
    if tried { StatesOfOneMore(Prefix(n), Tried(Script(n).command)); }
    if reported { StatesOfOneMore(Partial(n, tried), Wrote(Verdict(n))); }
    hide Prefix, States, Script, Declared, Written;
  }

  /** The states a run persists are the declared ones in their order up to some point, then at most
      one terminal state: `failed` after the third to sixth, manual recovery after the eighth to tenth. */
  lemma StatesFollowTheDeclaredOrder(acts: seq<Act>)
    requires Trace(acts)
    ensures exists k: nat :: k <= 11 &&
              (States(acts) == Declared(k)
               || (3 <= k <= 6 && States(acts) == Declared(k) + [Failed])
               || (8 <= k <= 10 && States(acts) == Declared(k) + [ManualRecoveryRequired]))
  {
    var n: nat, tried, reported :| TraceOf(acts, n, tried, reported);
    StatesOfTrace(acts, n, tried, reported);
    assert reported ==> 3 <= n <= 17 && n != 11;
    hide Trace, TraceOf, States, Declared;
    assert reported ==> if n < 12 then 3 <= Written(n) <= 6 else 8 <= Written(n) <= 10;
  }
}
