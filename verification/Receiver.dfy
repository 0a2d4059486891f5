/**
 The replica receiver. Sending sessions fill staging directories; a commit publishes one under
 its number and prunes all but the two greatest complete versions, file by file. Sessions
 interleave freely and may die between any two file-system operations.
 */
module Receiver {

  type Dir = map<string, string>

  const MARKER := ".runvard-complete"

  /** The entries of a replica's versions directory. */
  datatype Name = Final(n: nat) | Staging(n: nat, hex: string)

  datatype Phase =
    | Sending
    | Checked
    | Marked
    | Published
    | Listing(pending: set<nat>, found: set<nat>)
    | Pruning(obsolete: set<nat>)
    | Dead

  datatype Session = Session(n: nat, hex: string, phase: Phase)

  /** `published` is the history: what each number held when it was last made visible. */
  datatype State = State(dirs: map<Name, Dir>, sessions: map<nat, Session>, published: map<nat, Dir>)

  function StagingOf(x: Session): Name { Staging(x.n, x.hex) }

  predicate Committing(x: Session) { x.phase.Checked? || x.phase.Marked? }

  function WithPhase(s: State, id: nat, p: Phase): State
    requires id in s.sessions
  {
    s.(sessions := s.sessions[id := s.sessions[id].(phase := p)])
  }

  predicate SubDir(a: Dir, b: Dir) {
    forall f :: f in a ==> f in b && a[f] == b[f]
  }

  /** Everything the version held when it was published is still there. */
  predicate Intact(s: State, n: nat) {
    n in s.published && Final(n) in s.dirs && s.dirs[Final(n)] == s.published[n]
  }

  ghost predicate TwoGreaterIntact(s: State, n: nat) {
    exists u, v :: n < u < v && Intact(s, u) && Intact(s, v)
  }

  /** The numbers `committed[:-2]` takes from a listing. */
  ghost predicate Surplus(found: set<nat>, n: nat) {
    n in found && exists u, v :: n < u < v && u in found && v in found
  }

  /******* Steps *******/

  ghost predicate Begin(s: State, t: State, id: nat, n: nat, hex: string) {
    && id !in s.sessions
    && (forall i :: i in s.sessions ==> StagingOf(s.sessions[i]) != Staging(n, hex))
    && t == s.(sessions := s.sessions[id := Session(n, hex, Sending)])
  }

  /** rsync may leave anything in the session's own staging directory, and nowhere else. */
  ghost predicate Send(s: State, t: State, id: nat, d: Dir) {
    && id in s.sessions && s.sessions[id].phase.Sending?
    && t == s.(dirs := s.dirs[StagingOf(s.sessions[id]) := d])
  }

  ghost predicate Check(s: State, t: State, id: nat) {
    && id in s.sessions && s.sessions[id].phase.Sending?
    && StagingOf(s.sessions[id]) in s.dirs && Final(s.sessions[id].n) !in s.dirs
    && t == WithPhase(s, id, Checked)
  }

  ghost predicate Mark(s: State, t: State, id: nat) {
    && id in s.sessions && s.sessions[id].phase.Checked? && StagingOf(s.sessions[id]) in s.dirs
    && var name := StagingOf(s.sessions[id]);
       t == WithPhase(s, id, Marked).(dirs := s.dirs[name := s.dirs[name][MARKER := "complete\n"]])
  }

  /** The rename. Another session may have published the number since the check; a rename
      replaces an empty directory and fails on any other. */
  ghost predicate Publish(s: State, t: State, id: nat) {
    && id in s.sessions && s.sessions[id].phase.Marked? && StagingOf(s.sessions[id]) in s.dirs
    && var name, final := StagingOf(s.sessions[id]), Final(s.sessions[id].n);
       && (final in s.dirs ==> s.dirs[final] == map[])
       && t == WithPhase(s, id, Published).(
                 dirs := (s.dirs - {name})[final := s.dirs[name]],
                 published := s.published[final.n := s.dirs[name]])
  }

  ghost predicate List(s: State, t: State, id: nat) {
    && id in s.sessions && s.sessions[id].phase.Published?
    && t == WithPhase(s, id, Listing(set name | name in s.dirs && name.Final? :: name.n, {}))
  }

  /** The marker of each listed version is looked for in turn, not all at once. */
  ghost predicate Look(s: State, t: State, id: nat, m: nat) {
    && id in s.sessions && s.sessions[id].phase.Listing? && m in s.sessions[id].phase.pending
    && var p := s.sessions[id].phase;
       var complete := Final(m) in s.dirs && MARKER in s.dirs[Final(m)];
       t == WithPhase(s, id, Listing(p.pending - {m}, if complete then p.found + {m} else p.found))
  }

  ghost predicate Choose(s: State, t: State, id: nat) {
    && id in s.sessions && s.sessions[id].phase.Listing? && s.sessions[id].phase.pending == {}
    && var found := s.sessions[id].phase.found;
       t == WithPhase(s, id, Pruning(set n | n in found && Surplus(found, n)))
  }

  ghost predicate RemoveFile(s: State, t: State, id: nat, m: nat, f: string) {
    && id in s.sessions && s.sessions[id].phase.Pruning? && m in s.sessions[id].phase.obsolete
    && Final(m) in s.dirs && f in s.dirs[Final(m)]
    && t == s.(dirs := s.dirs[Final(m) := s.dirs[Final(m)] - {f}])
  }

  ghost predicate RemoveDir(s: State, t: State, id: nat, m: nat) {
    && id in s.sessions && s.sessions[id].phase.Pruning? && m in s.sessions[id].phase.obsolete
    && Final(m) in s.dirs && s.dirs[Final(m)] == map[]
    && t == WithPhase(s, id, Pruning(s.sessions[id].phase.obsolete - {m})).(dirs := s.dirs - {Final(m)})
  }

  ghost predicate Die(s: State, t: State, id: nat) {
    id in s.sessions && t == WithPhase(s, id, Dead)
  }

  const DAY := 86400

  /** The cutoff a sender asks for at `now`. */
  function Cutoff(now: nat): nat { if now <= DAY then 0 else now - DAY }

  /** One removal by a cleanup: a file of a staging directory numbered below the cutoff, or the
      emptied directory. */
  ghost predicate Sweep(s: State, t: State, name: Name, cutoff: nat, f: string) {
    && name.Staging? && name.n < cutoff && name in s.dirs
    && t == if s.dirs[name] == map[] then s.(dirs := s.dirs - {name})
            else s.(dirs := s.dirs[name := s.dirs[name] - {f}])
  }

  /** No commit in progress is of a session that began before the cutoff. */
  ghost predicate CutoffBehindCommits(s: State, cutoff: nat) {
    forall i :: i in s.sessions && Committing(s.sessions[i]) ==> cutoff <= s.sessions[i].n
  }

  ghost predicate Clean(s: State, t: State, name: Name, cutoff: nat, f: string) {
    Sweep(s, t, name, cutoff, f) && CutoffBehindCommits(s, cutoff)
  }

  /** A sender's cleanup stays behind the commits in progress exactly when each of their sessions began at
      most a day before it. */
  lemma DayOldCutoff(s: State, t: State, name: Name, now: nat, f: string)
    requires Sweep(s, t, name, Cutoff(now), f)
    ensures Clean(s, t, name, Cutoff(now), f) <==>
              forall i :: i in s.sessions && Committing(s.sessions[i]) ==> now <= s.sessions[i].n + DAY
  {
  }

  /** It is then never at work on a directory whose commit is in progress. */
  lemma CleanSparesCommits(s: State, t: State, name: Name, cutoff: nat, f: string, id: nat)
    requires Clean(s, t, name, cutoff, f) && id in s.sessions && Committing(s.sessions[id])
    ensures StagingOf(s.sessions[id]) != name
    ensures StagingOf(s.sessions[id]) in s.dirs ==>
              StagingOf(s.sessions[id]) in t.dirs && t.dirs[StagingOf(s.sessions[id])] == s.dirs[StagingOf(s.sessions[id])]
  {
  }

  datatype Event =
    | DoBegin(id: nat, n: nat, hex: string)
    | DoSend(id: nat, dir: Dir)
    | DoCheck(id: nat)
    | DoMark(id: nat)
    | DoPublish(id: nat)
    | DoList(id: nat)
    | DoLook(id: nat, m: nat)
    | DoChoose(id: nat)
    | DoRemoveFile(id: nat, m: nat, file: string)
    | DoRemoveDir(id: nat, m: nat)
    | DoDie(id: nat)
    | DoClean(name: Name, cutoff: nat, file: string)

  ghost predicate Step(s: State, e: Event, t: State) {
    match e
    case DoBegin(id, n, hex) => Begin(s, t, id, n, hex)
    case DoSend(id, d) => Send(s, t, id, d)
    case DoCheck(id) => Check(s, t, id)
    case DoMark(id) => Mark(s, t, id)
    case DoPublish(id) => Publish(s, t, id)
    case DoList(id) => List(s, t, id)
    case DoLook(id, m) => Look(s, t, id, m)
    case DoChoose(id) => Choose(s, t, id)
    case DoRemoveFile(id, m, f) => RemoveFile(s, t, id, m, f)
    case DoRemoveDir(id, m) => RemoveDir(s, t, id, m)
    case DoDie(id) => Die(s, t, id)
    case DoClean(name, cutoff, f) => Clean(s, t, name, cutoff, f)
  }

  /******* What every reachable state satisfies *******/

  /** A visible version holds nothing but what was published under its number, marker included,
      and if anything of it is gone two greater versions are whole. */
  ghost predicate VersionSafe(s: State, n: nat) {
    && (Final(n) in s.dirs ==> n in s.published && SubDir(s.dirs[Final(n)], s.published[n]))
    && (n in s.published ==> MARKER in s.published[n] && (Intact(s, n) || TwoGreaterIntact(s, n)))
  }

  ghost predicate SessionSafe(s: State, id: nat)
    requires id in s.sessions
  {
    var x := s.sessions[id];
    && (x.phase.Marked? && StagingOf(x) in s.dirs ==> MARKER in s.dirs[StagingOf(x)])
    && (x.phase.Listing? ==> x.phase.found <= s.published.Keys)
    && (x.phase.Pruning? ==> forall m :: m in x.phase.obsolete ==> TwoGreaterIntact(s, m))
  }

  ghost predicate OwnStaging(s: State) {
    forall i, j :: i in s.sessions && j in s.sessions && StagingOf(s.sessions[i]) == StagingOf(s.sessions[j]) ==> i == j
  }

  ghost predicate Safe(s: State) {
    && (forall n :: VersionSafe(s, n))
    && (forall id :: id in s.sessions ==> SessionSafe(s, id))
    && OwnStaging(s)
  }

  /** No version that is whole becomes less: then two greater versions stay two greater versions. */
  lemma IntactStays(s: State, t: State, n: nat)
    requires TwoGreaterIntact(s, n)
    requires forall u :: Intact(s, u) ==> Intact(t, u)
    ensures TwoGreaterIntact(t, n)
  {
  }

  /** Losing one version that has two greater ones costs no other version its two. */
  lemma LossIsCovered(s: State, t: State, n: nat, m: nat)
    requires TwoGreaterIntact(s, n) && TwoGreaterIntact(s, m)
    requires forall u :: u != m && Intact(s, u) ==> Intact(t, u)
    ensures TwoGreaterIntact(t, n)
  {
  }

  /** The files of published versions and the sessions' knowledge are as before. */
  ghost predicate KeepsFinals(s: State, t: State) {
    && t.published == s.published
    && (forall n :: Final(n) in t.dirs <==> Final(n) in s.dirs)
    && (forall n :: Final(n) in s.dirs ==> t.dirs[Final(n)] == s.dirs[Final(n)])
  }

  lemma KeepingFinalsIsSafe(s: State, t: State, n: nat)
    requires KeepsFinals(s, t)
    ensures Intact(s, n) <==> Intact(t, n)
    ensures TwoGreaterIntact(s, n) <==> TwoGreaterIntact(t, n)
    ensures VersionSafe(s, n) ==> VersionSafe(t, n)
  {
    assert forall u :: Intact(s, u) <==> Intact(t, u);
  }

  /** What a found surplus version may count on. */
  lemma SurplusIsCovered(s: State, found: set<nat>, n: nat)
    requires Safe(s) && found <= s.published.Keys && Surplus(found, n)
    ensures TwoGreaterIntact(s, n)
  {
    var u, v :| n < u < v && u in found && v in found;
    assert VersionSafe(s, u) && VersionSafe(s, v);
    if TwoGreaterIntact(s, u) {
      var a, b :| u < a < b && Intact(s, a) && Intact(s, b);
      assert n < a < b;
    }
  }

  ghost predicate QuietStep(e: Event) {
    !e.DoPublish? && !e.DoRemoveFile? && !e.DoRemoveDir?
  }

  /** Sending, checking, marking, listing and cleaning leave every visible version alone. */
  lemma QuietStepKeepsFinals(s: State, e: Event, t: State)
    requires Step(s, e, t) && QuietStep(e)
    ensures KeepsFinals(s, t)
  {
  }

  lemma QuietStepKeepsSessions(s: State, e: Event, t: State, id: nat)
    requires Safe(s) && Step(s, e, t) && QuietStep(e) && id in t.sessions
    ensures SessionSafe(t, id)
  {
    QuietStepKeepsFinals(s, e, t);
    assert id in s.sessions ==> SessionSafe(s, id);
    forall m ensures TwoGreaterIntact(s, m) <==> TwoGreaterIntact(t, m) {
      KeepingFinalsIsSafe(s, t, m);
    }
    if e.DoLook? {
      assert VersionSafe(s, e.m);
    } else if e.DoChoose? && e.id == id {
      forall m | m in t.sessions[id].phase.obsolete ensures TwoGreaterIntact(s, m) {
        SurplusIsCovered(s, s.sessions[id].phase.found, m);
      }
    }
  }

  lemma QuietStepKeepsSafe(s: State, e: Event, t: State)
    requires Safe(s) && Step(s, e, t) && QuietStep(e)
    ensures Safe(t)
  {
    QuietStepKeepsFinals(s, e, t);
    forall n ensures VersionSafe(t, n) {
      assert VersionSafe(s, n);
      KeepingFinalsIsSafe(s, t, n);
    }
    forall id | id in t.sessions ensures SessionSafe(t, id) {
      QuietStepKeepsSessions(s, e, t, id);
    }
  }

  lemma PublishKeepsSafe(s: State, t: State, id: nat)
    requires Safe(s) && Publish(s, t, id)
    ensures Safe(t)
  {
    var x := s.sessions[id];
    assert SessionSafe(s, id);
    assert VersionSafe(s, x.n);
    forall u | Intact(s, u) ensures Intact(t, u) {
    }
    forall n ensures VersionSafe(t, n) {
      assert VersionSafe(s, n);
      if n != x.n && TwoGreaterIntact(s, n) { IntactStays(s, t, n); }
    }
    forall i | i in t.sessions ensures SessionSafe(t, i) {
      assert SessionSafe(s, i);
      if t.sessions[i].phase.Pruning? {
        forall m | m in t.sessions[i].phase.obsolete ensures TwoGreaterIntact(t, m) {
          IntactStays(s, t, m);
        }
      }
    }
  }

  /** Removing a file or the emptied directory of version `m`. */
  ghost predicate Loses(s: State, t: State, m: nat) {
    && t.published == s.published
    && (forall name :: name in t.dirs ==> name in s.dirs && SubDir(t.dirs[name], s.dirs[name]))
    && (forall name :: name in s.dirs && name != Final(m) ==> name in t.dirs && t.dirs[name] == s.dirs[name])
  }

  lemma RemovalLoses(s: State, e: Event, t: State)
    requires Step(s, e, t) && (e.DoRemoveFile? || e.DoRemoveDir?)
    ensures Loses(s, t, e.m)
  {
  }

  lemma LossKeepsVersion(s: State, t: State, m: nat, n: nat)
    requires VersionSafe(s, n) && TwoGreaterIntact(s, m) && Loses(s, t, m)
    ensures VersionSafe(t, n)
  {
    assert forall u :: u != m && Intact(s, u) ==> Intact(t, u);
    if n == m || TwoGreaterIntact(s, n) {
      LossIsCovered(s, t, n, m);
    }
  }

  lemma RemovalKeepsSafe(s: State, e: Event, t: State)
    requires Safe(s) && Step(s, e, t) && (e.DoRemoveFile? || e.DoRemoveDir?)
    ensures Safe(t)
  {
    var m := e.m;
    RemovalLoses(s, e, t);
    assert SessionSafe(s, e.id);
    assert TwoGreaterIntact(s, m);
    forall n ensures VersionSafe(t, n) {
      assert VersionSafe(s, n);
      LossKeepsVersion(s, t, m, n);
    }
    forall i | i in t.sessions ensures SessionSafe(t, i) {
      assert SessionSafe(s, i);
      if t.sessions[i].phase.Pruning? {
        forall k | k in t.sessions[i].phase.obsolete ensures TwoGreaterIntact(t, k) {
          assert forall u :: u != m && Intact(s, u) ==> Intact(t, u);
          LossIsCovered(s, t, k, m);
        }
      }
    }
  }

  lemma StepKeepsSafe(s: State, e: Event, t: State)
    requires Safe(s) && Step(s, e, t)
    ensures Safe(t)
  {
    if QuietStep(e) {
      QuietStepKeepsSafe(s, e, t);
    } else if e.DoPublish? {
      PublishKeepsSafe(s, t, e.id);
    } else {
      RemovalKeepsSafe(s, e, t);
    }
  }

  /******* Runs *******/

  const EMPTY := State(map[], map[], map[])

  ghost predicate Run(states: seq<State>, events: seq<Event>) {
    && |states| == |events| + 1 && states[0] == EMPTY
    && forall i :: 0 <= i < |events| ==> Step(states[i], events[i], states[i + 1])
  }

  lemma {:induction false} RunsStaySafe(states: seq<State>, events: seq<Event>, i: nat)
    requires Run(states, events) && i < |states|
    ensures Safe(states[i])
  {
    if i > 0 {
      RunsStaySafe(states, events, i - 1);
      StepKeepsSafe(states[i - 1], events[i - 1], states[i]);
    }
  }

  /** Whatever died where: the two greatest versions ever published are there, whole, and so is
      every version with fewer than two greater ones. */
  lemma NewestVersionsSurvive(states: seq<State>, events: seq<Event>, i: nat, n: nat)
    requires Run(states, events) && i < |states| && n in states[i].published
    requires forall u, v :: n < u < v ==> u !in states[i].published || v !in states[i].published
    ensures Intact(states[i], n) && MARKER in states[i].dirs[Final(n)]
  {
    RunsStaySafe(states, events, i);
    assert VersionSafe(states[i], n);
    assert !TwoGreaterIntact(states[i], n);
  }

  /** A visible version without its marker has two greater whole ones: exactly then may it be. */
  lemma UnmarkedIsSuperseded(states: seq<State>, events: seq<Event>, i: nat, n: nat)
    requires Run(states, events) && i < |states|
    requires Final(n) in states[i].dirs && MARKER !in states[i].dirs[Final(n)]
    ensures n in states[i].published && TwoGreaterIntact(states[i], n)
  {
    RunsStaySafe(states, events, i);
    assert VersionSafe(states[i], n);
  }

  /** A session that has renamed, or can no longer. */
  predicate PastMark(x: Session) {
    !x.phase.Sending? && !x.phase.Checked? && !x.phase.Marked?
  }

  ghost predicate HasPublisher(s: State, n: nat) {
    exists id :: id in s.sessions && s.sessions[id].n == n && PastMark(s.sessions[id])
  }

  lemma SessionsStay(s: State, e: Event, t: State, id: nat)
    requires Step(s, e, t) && id in s.sessions
    ensures id in t.sessions && t.sessions[id].n == s.sessions[id].n
    ensures PastMark(s.sessions[id]) ==> PastMark(t.sessions[id])
  {
  }

  lemma NewlyPublished(s: State, e: Event, t: State, n: nat)
    requires Step(s, e, t) && n in t.published && n !in s.published
    ensures HasPublisher(t, n)
  {
    assert PastMark(t.sessions[e.id]) && t.sessions[e.id].n == n;
  }

  lemma {:induction false} PublishedHavePublishers(states: seq<State>, events: seq<Event>, i: nat, n: nat)
    requires Run(states, events) && i < |states| && n in states[i].published
    ensures HasPublisher(states[i], n)
  {
    hide Step, PastMark;
    if i > 0 {
      var s, e, t := states[i - 1], events[i - 1], states[i];
      assert Step(s, e, t);
      if n in s.published {
        PublishedHavePublishers(states, events, i - 1, n);
        var id :| id in s.sessions && s.sessions[id].n == n && PastMark(s.sessions[id]);
        SessionsStay(s, e, t, id);
      } else {
        NewlyPublished(s, e, t, n);
      }
    }
  }

  ghost predicate CarriedTwice(s: State, n: nat) {
    exists a, b :: a != b && a in s.sessions && b in s.sessions && s.sessions[a].n == n && s.sessions[b].n == n
  }

  lemma PublisherIsMarked(s: State, e: Event, t: State, n: nat)
    requires Step(s, e, t) && e.DoPublish?
    requires Final(n) in s.dirs && Final(n) in t.dirs && t.dirs[Final(n)] != s.dirs[Final(n)]
    ensures e.id in s.sessions && s.sessions[e.id].n == n && !PastMark(s.sessions[e.id])
  {
  }

  /** A commit that renames over a visible version is that of a second session of its number. */
  lemma RenameNeedsTwin(states: seq<State>, events: seq<Event>, i: nat, n: nat)
    requires Run(states, events) && i < |events| && events[i].DoPublish? && n in states[i].published
    requires Final(n) in states[i].dirs && Final(n) in states[i + 1].dirs
    requires states[i + 1].dirs[Final(n)] != states[i].dirs[Final(n)]
    ensures CarriedTwice(states[i], n)
  {
    var s, e := states[i], events[i];
    PublishedHavePublishers(states, events, i, n);
    assert Step(s, e, states[i + 1]);
    hide Step, PastMark;
    var id :| id in s.sessions && s.sessions[id].n == n && PastMark(s.sessions[id]);
    PublisherIsMarked(s, e, states[i + 1], n);
    assert id != e.id;
  }

  /** What is visible was published, and nothing writes to it: files only ever disappear, and only
      from a version that two greater whole ones supersede. The one exception is a directory that has
      been emptied that way and not yet removed: a second session of the same number may rename over it,
      and the number then holds a whole new version. */
  lemma VisibleVersionsOnlyShrink(states: seq<State>, events: seq<Event>, i: nat, n: nat)
    requires Run(states, events) && i < |events| && Final(n) in states[i].dirs
    ensures var s, t := states[i], states[i + 1];
            && n in s.published && SubDir(s.dirs[Final(n)], s.published[n])
            && (s.dirs[Final(n)] == map[] ==> TwoGreaterIntact(s, n))
            && (Final(n) !in t.dirs ==> TwoGreaterIntact(t, n))
            && (Final(n) in t.dirs && t.dirs[Final(n)] != s.dirs[Final(n)] ==>
                  || (SubDir(t.dirs[Final(n)], s.dirs[Final(n)]) && t.published[n] == s.published[n] && TwoGreaterIntact(t, n))
                  || (s.dirs[Final(n)] == map[] && events[i].DoPublish? && Intact(t, n) && CarriedTwice(s, n)))
  {
    var s, e, t := states[i], events[i], states[i + 1];
    RunsStaySafe(states, events, i);
    RunsStaySafe(states, events, i + 1);
    assert VersionSafe(s, n) && VersionSafe(t, n);
    assert Step(s, e, t);
    if QuietStep(e) {
      QuietStepKeepsFinals(s, e, t);
    } else if !e.DoPublish? {
      RemovalLoses(s, e, t);
      assert SessionSafe(s, e.id);
      LossIsCovered(s, t, e.m, e.m);
    } else if Final(n) in t.dirs && t.dirs[Final(n)] != s.dirs[Final(n)] {
      RenameNeedsTwin(states, events, i, n);
    }
    hide CarriedTwice;
  }
}
