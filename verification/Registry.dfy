/**
 The Time Machine target registry: operations that render and activate the managed
 configuration, change a native quota, persist the registry, and undo what they did
 when any command on the way fails. Every external command is an `Attempt` that may
 succeed or fail; one that fails has no effect.
 */
module Registry {
  import opened Common
  import opened SambaConfig

  const MAX_TARGETS := 20
  const GIB := 1024 * 1024 * 1024

  ghost predicate DistinctTargetIds(ts: seq<Target>) {
    forall i, j :: 0 <= i < j < |ts| ==> ts[i].id != ts[j].id
  }

  predicate Native(t: Target) { t.backend != Directory }

  /******* What each operation asks for *******/

  function SetEnabled(ts: seq<Target>, i: nat, enabled: bool): seq<Target>
    requires i < |ts|
  {
    ts[i := ts[i].(enabled := enabled, status := if enabled then Waiting else Paused)]
  }

  function Retire(ts: seq<Target>, i: nat): seq<Target>
    requires i < |ts|
  {
    ts[i := ts[i].(enabled := false, status := Removed)]
  }

  function AdvertisedGib(capacityGib: nat): nat {
    if capacityGib * 95 / 100 < 1 then 1 else capacityGib * 95 / 100
  }

  function Resize(ts: seq<Target>, i: nat, capacityGib: nat): seq<Target>
    requires i < |ts|
  {
    ts[i := ts[i].(hardLimit := capacityGib * GIB, advertisedGib := AdvertisedGib(capacityGib))]
  }

  /** Each enabled target whose storage is unavailable is taken out of service. */
  function Quarantine(ts: seq<Target>, unavailable: seq<bool>): (after: seq<Target>)
    requires |unavailable| == |ts|
    ensures |after| == |ts|
    ensures forall i :: 0 <= i < |ts| ==>
              after[i] == if ts[i].enabled && ts[i].status != Removed && unavailable[i]
                          then ts[i].(enabled := false, status := Critical) else ts[i]
  {
    seq(|ts|, i requires 0 <= i < |ts| =>
      if ts[i].enabled && ts[i].status != Removed && unavailable[i]
      then ts[i].(enabled := false, status := Critical) else ts[i])
  }

  /** Both managed files say what a registry says; with no targets there may be no include. */
  ghost predicate FilesSay(include_: Option<seq<Share>>, avahi: Option<seq<string>>, ts: seq<Target>) {
    && (include_ == Some(Render(ts)) || (include_ == None && ts == []))
    && avahi == Advertise(ts)
  }

  /** The include no longer says what the registry said. */
  predicate Drifted(include_: Option<seq<Share>>, previous: seq<Target>)
    ensures Drifted(include_, previous) <==> !exists avahi :: FilesSay(include_, avahi, previous)
  {
    assert FilesSay(include_, Advertise(previous), previous) ||
           !(include_ == Some(Render(previous)) || (include_ == None && previous == []));
    if include_.None? then previous != [] else include_.value != Render(previous)
  }

  /** The files publish a target: a share of its name, account, directory and size, and its name in
      the advertisement. */
  ghost predicate Published(include_: Option<seq<Share>>, avahi: Option<seq<string>>, t: Target) {
    && include_.Some? && Share(t.shareName, t.id, t.path, t.owner, t.advertisedGib) in include_.value
    && avahi.Some? && t.shareName in avahi.value
  }

  /** The include has no share of a target. */
  ghost predicate Withdrawn(include_: Option<seq<Share>>, t: Target) {
    include_.None? || forall s :: s in include_.value ==> s.targetId != t.id
  }

  lemma EnabledIsShared(ts: seq<Target>, t: Target)
    requires t in ts && t.enabled
    ensures Share(t.shareName, t.id, t.path, t.owner, t.advertisedGib) in Render(ts)
  {
    hide Render;
    RenderListsEnabled(ts);
    assert Describes(Share(t.shareName, t.id, t.path, t.owner, t.advertisedGib), t);
  }

  lemma EnabledIsAdvertised(ts: seq<Target>, t: Target)
    requires t in ts && t.enabled
    ensures Advertise(ts).Some? && t.shareName in Advertise(ts).value
  {
    hide Advertise, Enabled, SortByName, SortedByName;
    AdvertisedInNameOrder(ts);
    var listed := SortByName(Enabled(ts));
    assert t in multiset(listed) by {
      assert multiset(listed)[t] == multiset(ts)[t];
    }
    var k :| 0 <= k < |listed| && listed[k] == t;
    assert Advertise(ts).value[k] == t.shareName;
  }

  lemma DisabledIsNotShared(ts: seq<Target>, i: nat, s: Share)
    requires i < |ts| && !ts[i].enabled && DistinctTargetIds(ts) && s in Render(ts)
    ensures s.targetId != ts[i].id
  {
    hide Render;
    RenderListsEnabled(ts);
    var t :| t in ts && t.enabled && Describes(s, t);
  }

  /** Files that say what a registry says publish its enabled targets and withdraw the others. */
  lemma FilesPublishTheEnabled(include_: Option<seq<Share>>, avahi: Option<seq<string>>, ts: seq<Target>, i: nat)
    requires FilesSay(include_, avahi, ts) && DistinctTargetIds(ts) && i < |ts|
    ensures if ts[i].enabled then Published(include_, avahi, ts[i]) else Withdrawn(include_, ts[i])
  {
    hide Render, Advertise, DistinctTargetIds;
    if ts[i].enabled {
      EnabledIsShared(ts, ts[i]);
      EnabledIsAdvertised(ts, ts[i]);
    } else {
      forall s | s in Render(ts)
        ensures s.targetId != ts[i].id
      {
        DisabledIsNotShared(ts, i, s);
      }
    }
  }

  /** A target with a new switch and status, and everything else as before. */
  ghost predicate Switched(before: Target, after: Target, enabled: bool, status: Status) {
    && after.enabled == enabled && after.status == status
    && after.id == before.id && after.shareName == before.shareName && after.owner == before.owner
    && after.path == before.path && after.backend == before.backend
    && after.advertisedGib == before.advertisedGib && after.hardLimit == before.hardLimit
  }

  /** A target with a new capacity, of which whole 95 hundredths are advertised. */
  ghost predicate Resized(before: Target, after: Target, capacityGib: nat) {
    && after.hardLimit == capacityGib * 1_073_741_824
    && after.advertisedGib * 100 <= capacityGib * 95 < after.advertisedGib * 100 + 100
    && after.id == before.id && after.shareName == before.shareName && after.owner == before.owner
    && after.path == before.path && after.backend == before.backend
    && after.enabled == before.enabled && after.status == before.status
  }

  /** A capacity is taken between 10 GiB and 10 PiB, for a target in service whose storage is there,
      that uses no more than would be advertised if that is less than before, and whose dataset
      exists if its limit changes. */
  ghost predicate AcceptsCapacity(t: Target, capacityGib: nat, storageOk: bool, measured: Option<int>, quota: map<string, int>) {
    && 10 <= capacityGib <= 10_000_000 && t.status != Removed && storageOk
    && (capacityGib * 95 < t.advertisedGib * 100 ==>
          measured.Some? && measured.value <= capacityGib * 95 / 100 * 1_073_741_824)
    && (t.backend != Directory && capacityGib * 1_073_741_824 != t.hardLimit ==> t.id in quota)
  }

  /** Nothing but the target at `i` differs. */
  ghost predicate OthersStay(before: seq<Target>, after: seq<Target>, i: nat) {
    |after| == |before| && forall k :: 0 <= k < |before| && k != i ==> after[k] == before[k]
  }

  /** Every native dataset that exists has its target's limit. */
  ghost predicate LimitsHold(ts: seq<Target>, quota: map<string, int>) {
    forall t :: t in ts && Native(t) && t.id in quota ==> quota[t.id] == t.hardLimit
  }

  /** A dataset destroyed, and then its target forgotten, disturbs no other. */
  lemma ForgettingKeepsLimits(ts: seq<Target>, i: nat, quota: map<string, int>)
    requires i < |ts| && DistinctTargetIds(ts)
    ensures DistinctTargetIds(Without(ts, i))
    ensures LimitsHold(ts, quota) ==>
              LimitsHold(ts, quota - {ts[i].id}) && LimitsHold(Without(ts, i), quota - {ts[i].id})
  {
  }

  /** A dataset of nobody's, or the newcomer's with its limit, disturbs no other. */
  lemma NewcomerKeepsLimits(ts: seq<Target>, quota: map<string, int>, t: Target)
    requires LimitsHold(ts, quota) && t.id !in quota && forall x :: x in ts ==> x.id != t.id
    ensures LimitsHold(ts + [t], quota)
    ensures LimitsHold(ts, quota[t.id := t.hardLimit]) && LimitsHold(ts + [t], quota[t.id := t.hardLimit])
  {
  }

  lemma NewcomerQuota(quota: map<string, int>, id: string, limit: int)
    requires id !in quota
    ensures quota[id := limit] - {id} == quota && quota - {id} == quota
  {
  }

  lemma AppendKeepsIds(ts: seq<Target>, t: Target)
    requires DistinctTargetIds(ts) && forall x :: x in ts ==> x.id != t.id
    ensures DistinctTargetIds(ts + [t])
  {
  }

  /** Changing anything but ids, backends and limits keeps limits and identities. */
  lemma SameIdentities(a: seq<Target>, b: seq<Target>, quota: map<string, int>)
    requires |a| == |b|
    requires forall i :: 0 <= i < |a| ==> a[i].id == b[i].id && a[i].backend == b[i].backend && a[i].hardLimit == b[i].hardLimit
    ensures DistinctTargetIds(a) ==> DistinctTargetIds(b)
    ensures LimitsHold(a, quota) ==> LimitsHold(b, quota)
  {
  }

  lemma SetEnabledSwitches(ts: seq<Target>, i: nat, enabled: bool)
    requires i < |ts|
    ensures var after := SetEnabled(ts, i, enabled);
            && OthersStay(ts, after, i) && Switched(ts[i], after[i], enabled, if enabled then Waiting else Paused)
            && after[i].enabled == enabled
  {
  }

  lemma RetireSwitches(ts: seq<Target>, i: nat)
    requires i < |ts|
    ensures var after := Retire(ts, i);
            OthersStay(ts, after, i) && Switched(ts[i], after[i], false, Removed) && !after[i].enabled
  {
  }

  /** Setting one target's limit along with its quota keeps all limits. */
  lemma ResizedLimits(ts: seq<Target>, i: nat, capacityGib: nat, quota: map<string, int>)
    requires i < |ts| && DistinctTargetIds(ts) && LimitsHold(ts, quota)
    ensures LimitsHold(Resize(ts, i, capacityGib), quota[ts[i].id := capacityGib * GIB])
    ensures !Native(ts[i]) || capacityGib * GIB == ts[i].hardLimit ==> LimitsHold(Resize(ts, i, capacityGib), quota)
    ensures Native(ts[i]) && ts[i].id in quota ==>
              quota[ts[i].id := capacityGib * GIB][ts[i].id := ts[i].hardLimit] == quota
  {
  }

  lemma ResizeKeepsIds(ts: seq<Target>, i: nat, capacityGib: nat)
    requires i < |ts| && DistinctTargetIds(ts)
    ensures DistinctTargetIds(Resize(ts, i, capacityGib))
  {
  }

  class Registry {
    /** The persisted registry. */
    var targets: seq<Target>
    /** The managed include and advertisement files, when present. */
    var include_: Option<seq<Share>>
    var avahi: Option<seq<string>>
    /** Whether the main Samba file includes the managed one. */
    var mainIncludes: bool
    /** Limits in force on the native datasets that exist. */
    var quota: map<string, int>
    /** Set when a command failed, and when one that was to undo something did. */
    ghost var commandFailed: bool
    ghost var undoFailed: bool

    /** The files say what the registry says, and so do the quotas. */
    ghost predicate Consistent()
      reads this
    {
      DistinctTargetIds(targets) && FilesSay(include_, avahi, targets) && LimitsHold(targets, quota)
    }

    constructor ()
      ensures Consistent() && targets == [] && !undoFailed && !commandFailed
    {
      targets, include_, avahi, mainIncludes, quota := [], None, None, false, map[];
      commandFailed, undoFailed := false, false;
    }

    method Attempt() returns (ok: bool)
      modifies this`commandFailed
      ensures commandFailed == (old(commandFailed) || !ok)
    {
      ok := *;
      commandFailed := commandFailed || !ok;
    }

    method UndoAttempt() returns (ok: bool)
      modifies this`undoFailed
      ensures undoFailed == (old(undoFailed) || !ok)
    {
      ok := *;
      undoFailed := undoFailed || !ok;
    }

    method SaveState(candidate: seq<Target>) returns (ok: bool)
      modifies this`targets, this`commandFailed
      ensures targets == if ok then candidate else old(targets)
      ensures old(commandFailed) ==> commandFailed
      ensures !commandFailed ==> ok
    {
      ok := Attempt();
      if ok { targets := candidate; }
    }

    method RestoreSamba(main: bool, previous: Option<seq<Share>>)
      modifies this`mainIncludes, this`include_, this`undoFailed
      ensures old(undoFailed) ==> undoFailed
      ensures undoFailed || (mainIncludes == main && include_ == previous)
    {
      var ok := UndoAttempt();
      if !ok { return; }
      mainIncludes := main;
      ok := UndoAttempt();
      if !ok { return; }
      include_ := previous;
    }

    /** Validate, write the include, hook it into the main file, reload, and check that
        the service runs; any failure puts both files back. */
    method ActivateSamba(ts: seq<Target>) returns (ok: bool)
      modifies this`mainIncludes, this`include_, this`undoFailed, this`commandFailed
      ensures old(undoFailed) ==> undoFailed
      ensures ok ==> include_ == Some(Render(ts)) && mainIncludes && undoFailed == old(undoFailed)
      ensures !ok ==> undoFailed || (include_ == old(include_) && mainIncludes == old(mainIncludes))
      ensures old(commandFailed) ==> commandFailed
      ensures !commandFailed ==> ok
    {
      var main, previous := mainIncludes, include_;
      ok := Attempt();
      if ok {
        include_ := Some(Render(ts));
        if !mainIncludes {
          ok := Attempt();
          if ok { mainIncludes := true; }
        }
      }
      if ok { ok := Attempt(); }
      if ok { ok := Attempt(); }
      if !ok { RestoreSamba(main, previous); }
    }

    method ActivateAvahi(ts: seq<Target>) returns (ok: bool)
      modifies this`avahi, this`undoFailed, this`commandFailed
      ensures old(undoFailed) ==> undoFailed
      ensures ok ==> avahi == Advertise(ts) && undoFailed == old(undoFailed)
      ensures !ok ==> undoFailed || avahi == old(avahi)
      ensures old(commandFailed) ==> commandFailed
      ensures !commandFailed ==> ok
    {
      var previous := avahi;
      ok := Attempt();
      if ok {
        avahi := Advertise(ts);
        ok := Attempt();
      }
      if ok { ok := Attempt(); }
      if !ok {
        var undone := UndoAttempt();
        if undone { avahi := previous; }
      }
    }

    /** Both files change together or not at all, and only when the include still says
        what the registry said before. */
    method ActivateManaged(ts: seq<Target>, previous: seq<Target>, allowDrift: bool) returns (ok: bool)
      modifies this`mainIncludes, this`include_, this`avahi, this`undoFailed, this`commandFailed
      ensures old(undoFailed) ==> undoFailed
      ensures ok ==> FilesSay(include_, avahi, ts) && include_.Some? && undoFailed == old(undoFailed)
      ensures !ok && !undoFailed && old(FilesSay(include_, avahi, previous)) ==> FilesSay(include_, avahi, previous)
      ensures !allowDrift && old(Drifted(include_, previous)) ==>
                !ok && include_ == old(include_) && avahi == old(avahi) && undoFailed == old(undoFailed)
      ensures old(commandFailed) ==> commandFailed
      ensures !commandFailed ==> (ok <==> allowDrift || !old(Drifted(include_, previous)))
    {
      if !allowDrift && Drifted(include_, previous) { return false; }
      ok := ActivateSamba(ts);
      if !ok { return; }
      ok := ActivateAvahi(ts);
      if !ok {
        var undone := ActivateSamba(previous);
        undoFailed := undoFailed || !undone;
      }
    }

    /** Activate a candidate registry and persist it, undoing the activation when the
        registry cannot be written. Shared tail of three of the operations below. */
    method Commit(candidate: seq<Target>) returns (ok: bool)
      modifies this`targets, this`mainIncludes, this`include_, this`avahi, this`undoFailed, this`commandFailed
      ensures old(undoFailed) ==> undoFailed
      ensures targets == if ok then candidate else old(targets)
      ensures ok ==> FilesSay(include_, avahi, candidate) && undoFailed == old(undoFailed)
      ensures !ok && !undoFailed && old(FilesSay(include_, avahi, targets)) ==> FilesSay(include_, avahi, targets)
      ensures old(Drifted(include_, targets)) ==>
                !ok && include_ == old(include_) && avahi == old(avahi) && undoFailed == old(undoFailed)
      ensures old(commandFailed) ==> commandFailed
      ensures !commandFailed ==> (ok <==> !old(Drifted(include_, targets)))
    {
      var previous := targets;
      ok := ActivateManaged(candidate, previous, false);
      if !ok { return; }
      ok := SaveState(candidate);
      if !ok {
        var undone := ActivateManaged(previous, candidate, false);
        undoFailed := undoFailed || !undone;
      }
    }

    /** Turn a target on or off. `storageOk` says whether its mount and path are there. */
    method SetTargetEnabled(i: nat, enabled: bool, storageOk: bool) returns (ok: bool)
      requires i < |targets| && DistinctTargetIds(targets)
      modifies this
      ensures old(Consistent()) ==> Consistent() || undoFailed
      ensures old(Drifted(include_, targets)) ==> targets == old(targets) && include_ == old(include_) && avahi == old(avahi)
      ensures !ok ==> targets == old(targets)
      ensures ok ==> OthersStay(old(targets), targets, i)
      ensures ok ==> Switched(old(targets)[i], targets[i], enabled, if enabled then Waiting else Paused)
      ensures ok ==> if enabled then Published(include_, avahi, targets[i]) else Withdrawn(include_, targets[i])
      ensures ok && old(LimitsHold(targets, quota)) ==> Consistent()
      ensures ok ==> old(targets)[i].status != Removed && (enabled ==> storageOk)
      ensures quota == old(quota)
      ensures old(commandFailed) ==> commandFailed
      ensures !commandFailed ==> 
                (ok <==> old(targets)[i].status != Removed && (enabled ==> storageOk) && !old(Drifted(include_, targets)))
    {
      if targets[i].status == Removed { return false; }
      if enabled && !storageOk { return false; }
      SameIdentities(targets, SetEnabled(targets, i, enabled), quota);
      SetEnabledSwitches(targets, i, enabled);
      assert |SetEnabled(targets, i, enabled)| == |targets|;
      hide *;
      ok := Commit(SetEnabled(targets, i, enabled));
      if ok { FilesPublishTheEnabled(include_, avahi, targets, i); }
    }

    /** Take a target out of service while keeping its data. */
    method RemoveTarget(i: nat, replicationRunning: bool) returns (ok: bool)
      requires i < |targets| && DistinctTargetIds(targets)
      modifies this
      ensures old(Consistent()) ==> Consistent() || undoFailed
      ensures old(Drifted(include_, targets)) ==> targets == old(targets) && include_ == old(include_) && avahi == old(avahi)
      ensures !ok ==> targets == old(targets)
      ensures ok ==> OthersStay(old(targets), targets, i)
      ensures ok ==> Switched(old(targets)[i], targets[i], false, Removed) && Withdrawn(include_, targets[i])
      ensures ok && old(LimitsHold(targets, quota)) ==> Consistent()
      ensures ok ==> !replicationRunning
      ensures quota == old(quota)
      ensures old(commandFailed) ==> commandFailed
      ensures !commandFailed ==> (ok <==> !replicationRunning && !old(Drifted(include_, targets)))
    {
      if replicationRunning { return false; }
      SameIdentities(targets, Retire(targets, i), quota);
      RetireSwitches(targets, i);
      assert |Retire(targets, i)| == |targets|;
      hide *;
      ok := Commit(Retire(targets, i));
      if ok { FilesPublishTheEnabled(include_, avahi, targets, i); }
    }

    /** Withdraw every enabled target whose storage has gone. */
    method QuarantineUnavailable(unavailable: seq<bool>) returns (ok: bool)
      requires |unavailable| == |targets| && DistinctTargetIds(targets)
      modifies this
      ensures old(Consistent()) ==> Consistent() || undoFailed
      ensures old(Drifted(include_, targets)) ==> targets == old(targets) && include_ == old(include_) && avahi == old(avahi)
      ensures !ok ==> targets == old(targets)
      ensures ok ==> |targets| == |old(targets)|
      ensures ok ==> forall k :: 0 <= k < |targets| ==>
                if old(targets)[k].enabled && old(targets)[k].status != Removed && unavailable[k]
                then Switched(old(targets)[k], targets[k], false, Critical) && Withdrawn(include_, targets[k])
                else targets[k] == old(targets)[k]
      ensures ok && old(targets) != targets && old(LimitsHold(targets, quota)) ==> Consistent()
      ensures quota == old(quota)
      ensures old(commandFailed) ==> commandFailed
      ensures !commandFailed ==> 
                (ok <==> (forall k :: 0 <= k < |unavailable| ==> !(old(targets)[k].enabled && old(targets)[k].status != Removed && unavailable[k]))
                         || !old(Drifted(include_, targets)))
    {
      hide FilesSay, Drifted, LimitsHold, DistinctTargetIds;
      var candidate, quarantined := targets, false;
      for i := 0 to |targets|
        invariant |candidate| == |targets|
        invariant forall k :: i <= k < |targets| ==> candidate[k] == targets[k]
        invariant forall k :: 0 <= k < i ==> candidate[k] == Quarantine(targets, unavailable)[k]
        invariant quarantined <==> candidate != targets
        invariant targets == old(targets)
      {
        var current := targets[i];
        if current.enabled && current.status != Removed && unavailable[i] {
          candidate := candidate[i := current.(enabled := false, status := Critical)];
          quarantined := true;
        }
      }
      assert candidate == Quarantine(targets, unavailable);
      SameIdentities(targets, candidate, quota);
      assert quarantined <==> exists k :: 0 <= k < |targets| && targets[k].enabled && targets[k].status != Removed && unavailable[k] by {
        assert quarantined ==> exists k :: 0 <= k < |targets| && candidate[k] != targets[k];
      }
      if !quarantined { return true; }
      ok := Commit(candidate);
      if ok {
        forall k | 0 <= k < |targets| && !targets[k].enabled
          ensures Withdrawn(include_, targets[k])
        {
          FilesPublishTheEnabled(include_, avahi, targets, k);
        }
      }
    }

    method SetQuota(t: Target, limit: int) returns (ok: bool)
      modifies this`quota, this`commandFailed
      ensures quota == if ok && Native(t) then old(quota)[t.id := limit] else old(quota)
      ensures ok && Native(t) ==> t.id in old(quota)
      ensures !Native(t) ==> ok
      ensures old(commandFailed) ==> commandFailed
      ensures !commandFailed ==> (ok <==> !Native(t) || t.id in old(quota))
    {
      if !Native(t) { return true; }
      if t.id !in quota { return false; }
      ok := Attempt();
      if ok { quota := quota[t.id := limit]; }
    }

    /** Change a target's capacity. `measured` is the space it uses, if that
        could be measured; a shrink below it is refused. The native limit is raised or lowered
        first and put back when the rest does not go through. */
    method UpdateTargetPolicy(i: nat, capacityGib: nat, storageOk: bool, measured: Option<int>) returns (ok: bool)
      requires i < |targets| && DistinctTargetIds(targets)
      modifies this
      ensures old(Consistent()) ==> Consistent() || undoFailed
      ensures old(Drifted(include_, targets)) ==> targets == old(targets) && include_ == old(include_) && avahi == old(avahi)
      ensures !ok ==> targets == old(targets)
      ensures ok ==> OthersStay(old(targets), targets, i) && Resized(old(targets)[i], targets[i], capacityGib)
      ensures ok && targets[i].enabled ==> Published(include_, avahi, targets[i])
      ensures ok && old(LimitsHold(targets, quota)) ==> Consistent()
      ensures ok ==> quota.Keys == old(quota).Keys && forall id :: id in quota && id != targets[i].id ==> quota[id] == old(quota)[id]
      ensures ok && targets[i].backend != Directory && targets[i].hardLimit != old(targets)[i].hardLimit ==>
                targets[i].id in quota && quota[targets[i].id] == targets[i].hardLimit
      ensures ok ==> AcceptsCapacity(old(targets)[i], capacityGib, storageOk, measured, old(quota))
      ensures old(commandFailed) ==> commandFailed
      ensures !commandFailed ==> 
                (ok <==> AcceptsCapacity(old(targets)[i], capacityGib, storageOk, measured, old(quota))
                         && !old(Drifted(include_, targets)))
    {
      hide FilesSay, Drifted, LimitsHold, DistinctTargetIds;
      if capacityGib < 10 || capacityGib > 10_000_000 { return false; }
      var current := targets[i];
      ResizeKeepsIds(targets, i, capacityGib);
      if LimitsHold(targets, quota) {
        ResizedLimits(targets, i, capacityGib, quota);
      }
      if current.status == Removed || !storageOk { return false; }
      if AdvertisedGib(capacityGib) < current.advertisedGib {
        if measured.None? || measured.value > AdvertisedGib(capacityGib) * GIB { return false; }
      }
      var newLimit := capacityGib * GIB;
      var quotaChanged := newLimit != current.hardLimit && Native(current);
      if quotaChanged {
        ok := SetQuota(current, newLimit);
        if !ok { return; }
      }
      ok := CommitResized(i, capacityGib, quotaChanged);
      if ok && targets[i].enabled { FilesPublishTheEnabled(include_, avahi, targets, i); }
    }

    method CommitResized(i: nat, capacityGib: nat, quotaChanged: bool) returns (ok: bool)
      requires i < |targets|
      requires quotaChanged ==> Native(targets[i]) && targets[i].id in quota
      modifies this
      ensures targets == if ok then Resize(old(targets), i, capacityGib) else old(targets)
      ensures ok ==> FilesSay(include_, avahi, targets) && quota == old(quota)
      ensures !ok && !undoFailed && old(FilesSay(include_, avahi, targets)) ==> FilesSay(include_, avahi, targets)
      ensures !ok && !undoFailed ==>
                quota == if quotaChanged then old(quota)[targets[i].id := targets[i].hardLimit] else old(quota)
      ensures old(Drifted(include_, targets)) ==> !ok && include_ == old(include_) && avahi == old(avahi)
      ensures old(undoFailed) ==> undoFailed
      ensures old(commandFailed) ==> commandFailed
      ensures !commandFailed ==> (ok <==> !old(Drifted(include_, targets)))
    {
      hide FilesSay, Drifted;
      var previous := targets;
      var candidate := Resize(targets, i, capacityGib);
      ok := ActivateManaged(candidate, previous, false);
      if ok {
        ok := SaveState(candidate);
        if ok { return; }
        var undone := ActivateManaged(previous, candidate, false);
        undoFailed := undoFailed || !undone;
      }
      if quotaChanged {
        var undone := SetQuota(previous[i], previous[i].hardLimit);
        undoFailed := undoFailed || !undone;
      }
    }

    /** Provision storage, activate the configuration, set the account's password and
        persist; unwind in the opposite order. `t` carries a fresh id. */
    method CreateTarget(t: Target, setsPassword: bool) returns (ok: bool)
      requires DistinctTargetIds(targets) && t.enabled && t.id !in quota && forall x :: x in targets ==> x.id != t.id
      modifies this
      ensures old(Consistent()) ==> Consistent() || undoFailed
      ensures old(Drifted(include_, targets)) ==> targets == old(targets) && include_ == old(include_) && avahi == old(avahi)
      ensures targets == if ok then old(targets) + [t] else old(targets)
      ensures ok && old(LimitsHold(targets, quota)) ==> Consistent()
      ensures ok ==> Published(include_, avahi, t)
      ensures ok ==> |old(targets)| < 20 && forall x :: x in old(targets) ==> x.shareName != t.shareName
      ensures quota == old(quota) || quota == old(quota)[t.id := t.hardLimit]
      ensures ok ==> (t.id in quota <==> t.backend != Directory)
      ensures old(commandFailed) ==> commandFailed
      ensures !commandFailed ==> 
                (ok <==> |old(targets)| < 20 && (forall x :: x in old(targets) ==> x.shareName != t.shareName)
                         && !old(Drifted(include_, targets)))
    {
      if |targets| >= MAX_TARGETS || exists x :: x in targets && x.shareName == t.shareName { return false; }
      ok := Attempt();
      if !ok { return; }
      hide FilesSay, Drifted, LimitsHold, DistinctTargetIds;
      AppendKeepsIds(targets, t);
      NewcomerQuota(quota, t.id, t.hardLimit);
      if LimitsHold(targets, quota) {
        NewcomerKeepsLimits(targets, quota, t);
      }
      var created := Attempt();
      if !created { return false; }
      if Native(t) { quota := quota[t.id := t.hardLimit]; }
      ok := PublishOrCleanUp(t, setsPassword);
      if ok { FilesPublishTheEnabled(include_, avahi, targets, |targets| - 1); }
    }

    /** Hand the storage over and publish it, or destroy the still empty storage. */
    method PublishOrCleanUp(t: Target, setsPassword: bool) returns (ok: bool)
      modifies this
      ensures targets == if ok then old(targets) + [t] else old(targets)
      ensures if ok then quota == old(quota) else quota == old(quota) || quota == old(quota) - {t.id}
      ensures ok ==> FilesSay(include_, avahi, targets)
      ensures !ok && !undoFailed && old(FilesSay(include_, avahi, targets)) ==> FilesSay(include_, avahi, targets)
      ensures old(Drifted(include_, targets)) ==> !ok && include_ == old(include_) && avahi == old(avahi)
      ensures old(undoFailed) ==> undoFailed
      ensures old(commandFailed) ==> commandFailed
      ensures !commandFailed ==> (ok <==> !old(Drifted(include_, targets)))
    {
      hide FilesSay, Drifted;
      ok := Attempt();
      if ok { ok := Publish(t, setsPassword); }
      if !ok {
        var cleaned := Attempt();
        if cleaned { quota := quota - {t.id}; }
      }
    }

    /** Activate with the new target, set the password, persist. */
    method Publish(t: Target, setsPassword: bool) returns (ok: bool)
      modifies this`targets, this`mainIncludes, this`include_, this`avahi, this`undoFailed, this`commandFailed
      ensures targets == if ok then old(targets) + [t] else old(targets)
      ensures ok ==> FilesSay(include_, avahi, targets)
      ensures !ok && !undoFailed && old(FilesSay(include_, avahi, targets)) ==> FilesSay(include_, avahi, targets)
      ensures old(Drifted(include_, targets)) ==> !ok && include_ == old(include_) && avahi == old(avahi)
      ensures old(undoFailed) ==> undoFailed
      ensures old(commandFailed) ==> commandFailed
      ensures !commandFailed ==> (ok <==> !old(Drifted(include_, targets)))
    {
      hide FilesSay, Drifted;
      var previous, candidate := targets, targets + [t];
      ok := ActivateManaged(candidate, previous, false);
      if !ok { return; }
      if setsPassword { ok := Attempt(); }
      if ok { ok := SaveState(candidate); }
      if !ok {
        var undone := ActivateManaged(previous, candidate, false);
        undoFailed := undoFailed || !undone;
      }
    }

    /** Forget a removed target after destroying its data. The rendered files are left
        alone: a disabled target was never in them. */
    method DeleteTargetData(i: nat, storageOk: bool, openHandles: bool) returns (ok: bool)
      requires i < |targets| && DistinctTargetIds(targets)
      modifies this`targets, this`quota, this`commandFailed
      ensures old(Consistent()) ==> Consistent()
      ensures targets == if ok then old(targets)[..i] + old(targets)[i + 1..] else old(targets)
      ensures quota == old(quota) || quota == old(quota) - {old(targets)[i].id}
      ensures ok ==> old(targets)[i].status == Removed && !old(targets)[i].enabled && storageOk && !openHandles
      ensures ok ==> old(targets)[i].id !in quota
      ensures old(commandFailed) ==> commandFailed
      ensures !commandFailed ==> 
                (ok <==> old(targets)[i].status == Removed && !old(targets)[i].enabled && storageOk && !openHandles)
    {
      hide Render, Advertise, LimitsHold, DistinctTargetIds;
      var t := targets[i];
      if t.status != Removed || t.enabled || !storageOk || openHandles { return false; }
      ok := Attempt();
      if !ok { return; }
      ForgettingDisabledKeepsFiles(targets, i);
      ForgettingKeepsLimits(targets, i, quota);
      quota := quota - {t.id};
      ok := SaveState(Without(targets, i));
    }

    /** Rewrite the files from the registry, drift or no drift. */
    method Reconcile() returns (ok: bool)
      modifies this`mainIncludes, this`include_, this`avahi, this`undoFailed, this`commandFailed
      ensures ok ==> FilesSay(include_, avahi, targets)
      ensures old(undoFailed) ==> undoFailed
      ensures old(commandFailed) ==> commandFailed
      ensures !commandFailed ==> ok
    {
      ok := ActivateManaged(targets, targets, true);
    }
  }
}
