/**
 A sending session that nobody interferes with: step by step it ends where the commit run to its end
 does, and on the way there is always a step to take.
 */
module SoloCommit {
  import opened Commit
  import opened Receiver

  /** Commit steps of one session. */
  ghost predicate CommitStep(e: Event, id: nat) {
    match e
    case DoCheck(i) => i == id
    case DoMark(i) => i == id
    case DoPublish(i) => i == id
    case DoList(i) => i == id
    case DoLook(i, _) => i == id
    case DoChoose(i) => i == id
    case DoRemoveFile(i, _, _) => i == id
    case DoRemoveDir(i, _) => i == id
    case _ => false
  }

  /** What a version's directory has come to when the superseded ones in `left` are being removed. */
  ghost predicate Removing(renamed: Dirs, now: Dirs, left: set<nat>, name: Name) {
    if name.Final? && Superseded(renamed, name.n)
    then name in now <==> name.n in left
    else (name in now <==> name in renamed) && (name in now ==> now[name] == renamed[name])
  }

  /** Where the directories stand when session `x` began from `d` and nobody else touched them. */
  ghost predicate OnTheWay(d: Dirs, now: Dirs, x: Session) {
    var renamed := if Staging(x.n, x.hex) in d then Renamed(d, x.n, x.hex) else d;
    match x.phase
    case Sending => now == d
    case Checked => now == d && Ready(d, x)
    case Marked =>
      Ready(d, x) && now == d[Staging(x.n, x.hex) := d[Staging(x.n, x.hex)][".runvard-complete" := "complete\n"]]
    case Published => Ready(d, x) && now == renamed
    case Listing(pending, found) =>
      Ready(d, x) && now == renamed && forall m :: m in found <==> Complete(renamed, m) && m !in pending
    case Pruning(obsolete) =>
      && Ready(d, x)
      && (forall m :: m in obsolete ==> Superseded(renamed, m))
      && forall name :: Removing(renamed, now, obsolete, name)
    case Dead => false
  }

  ghost predicate Ready(d: Dirs, x: Session) {
    Staging(x.n, x.hex) in d && Final(x.n) !in d
  }

  /** A session checks out exactly when the commit run to its end would not refuse it. */
  lemma ChecksExactly(s: State, id: nat)
    requires id in s.sessions && s.sessions[id].phase.Sending?
    ensures Ready(s.dirs, s.sessions[id]) <==> Step(s, DoCheck(id), WithPhase(s, id, Checked))
  {
  }

  lemma LookStays(d: Dirs, s: State, t: State, id: nat, m: nat)
    requires id in s.sessions && OnTheWay(d, s.dirs, s.sessions[id]) && Look(s, t, id, m)
    ensures OnTheWay(d, t.dirs, t.sessions[id])
  {
    var x := s.sessions[id];
    var renamed := Renamed(d, x.n, x.hex);
    assert Complete(renamed, m) <==> Final(m) in s.dirs && MARKER in s.dirs[Final(m)];
    hide Superseded, Renamed;
  }

  lemma ListStays(d: Dirs, s: State, t: State, id: nat)
    requires id in s.sessions && OnTheWay(d, s.dirs, s.sessions[id]) && List(s, t, id)
    ensures OnTheWay(d, t.dirs, t.sessions[id])
  {
    var x := s.sessions[id];
    var renamed := Renamed(d, x.n, x.hex);
    forall m | Complete(renamed, m)
      ensures m in t.sessions[id].phase.pending
    {
      assert Final(m) in s.dirs;
    }
    hide Superseded, Renamed;
  }

  lemma ChooseStays(d: Dirs, s: State, t: State, id: nat)
    requires id in s.sessions && OnTheWay(d, s.dirs, s.sessions[id]) && Choose(s, t, id)
    ensures OnTheWay(d, t.dirs, t.sessions[id])
  {
    var x := s.sessions[id];
    var renamed, found := Renamed(d, x.n, x.hex), x.phase.found;
    forall m
      ensures Superseded(renamed, m) <==> m in found && Surplus(found, m)
    {
      assert forall u :: u in found <==> Complete(renamed, u);
    }
    hide Renamed, Surplus;
    forall name
      ensures Removing(renamed, t.dirs, t.sessions[id].phase.obsolete, name)
    {
      assert name.Final? && Superseded(renamed, name.n) ==> name in renamed;
    }
  }

  lemma PublishStays(d: Dirs, s: State, e: Event, t: State, id: nat)
    requires id in s.sessions && OnTheWay(d, s.dirs, s.sessions[id]) && CommitStep(e, id) && Step(s, e, t)
    requires e.DoCheck? || e.DoMark? || e.DoPublish?
    ensures id in t.sessions && OnTheWay(d, t.dirs, t.sessions[id])
  {
    hide Superseded;
  }

  lemma RemovalStays(d: Dirs, s: State, e: Event, t: State, id: nat)
    requires id in s.sessions && OnTheWay(d, s.dirs, s.sessions[id]) && CommitStep(e, id) && Step(s, e, t)
    requires e.DoRemoveFile? || e.DoRemoveDir?
    ensures id in t.sessions && OnTheWay(d, t.dirs, t.sessions[id])
  {
    hide Superseded, Renamed;
  }

  /** Each commit step of the session stays on the way. */
  lemma StepStaysOnTheWay(d: Dirs, s: State, e: Event, t: State, id: nat)
    requires id in s.sessions && OnTheWay(d, s.dirs, s.sessions[id]) && CommitStep(e, id) && Step(s, e, t)
    ensures id in t.sessions && OnTheWay(d, t.dirs, t.sessions[id])
  {
    assert e.DoList? ==> List(s, t, id) && id in t.sessions;
    assert e.DoLook? ==> Look(s, t, id, e.m) && id in t.sessions;
    assert e.DoChoose? ==> Choose(s, t, id) && id in t.sessions;
    hide OnTheWay, Step, List, Look, Choose;
    match e {
      case DoList(_) => ListStays(d, s, t, id);
      case DoLook(_, m) => LookStays(d, s, t, id, m);
      case DoChoose(_) => ChooseStays(d, s, t, id);
      case DoRemoveFile(_, _, _) => RemovalStays(d, s, e, t, id);
      case DoRemoveDir(_, _) => RemovalStays(d, s, e, t, id);
      case _ => PublishStays(d, s, e, t, id);
    }
  }

  /** It is never stuck: until all that is superseded is gone there is a next step. */
  lemma NeverStuck(d: Dirs, s: State, id: nat) returns (e: Event, t: State)
    requires id in s.sessions && OnTheWay(d, s.dirs, s.sessions[id]) && Ready(d, s.sessions[id])
    requires s.sessions[id].phase != Pruning({})
    ensures CommitStep(e, id) && Step(s, e, t)
  {
    var x := s.sessions[id];
    var name := Staging(x.n, x.hex);
    match x.phase {
      case Sending => e, t := DoCheck(id), WithPhase(s, id, Checked);
      case Checked =>
        e, t := DoMark(id), WithPhase(s, id, Marked).(dirs := s.dirs[name := s.dirs[name][MARKER := "complete\n"]]);
      case Marked =>
        e, t := DoPublish(id), WithPhase(s, id, Published).(
          dirs := (s.dirs - {name})[Final(x.n) := s.dirs[name]], published := s.published[x.n := s.dirs[name]]);
      case Published => e, t := DoList(id), WithPhase(s, id, Listing(set m | m in s.dirs && m.Final? :: m.n, {}));
      case Listing(pending, found) =>
        if m :| m in pending {
          var complete := Final(m) in s.dirs && MARKER in s.dirs[Final(m)];
          e, t := DoLook(id, m), WithPhase(s, id, Listing(pending - {m}, if complete then found + {m} else found));
        } else {
          e, t := DoChoose(id), WithPhase(s, id, Pruning(set m | m in found && Surplus(found, m)));
        }
      case Pruning(obsolete) =>
        var m :| m in obsolete;
        assert Removing(Renamed(d, x.n, x.hex), s.dirs, obsolete, Final(m));
        e, t := RemovesOn(s, id, m);
    }
  }

  lemma RemovesOn(s: State, id: nat, m: nat) returns (e: Event, t: State)
    requires id in s.sessions && s.sessions[id].phase.Pruning? && m in s.sessions[id].phase.obsolete && Final(m) in s.dirs
    ensures CommitStep(e, id) && Step(s, e, t)
  {
    if f :| f in s.dirs[Final(m)] {
      e, t := DoRemoveFile(id, m, f), s.(dirs := s.dirs[Final(m) := s.dirs[Final(m)] - {f}]);
    } else {
      e, t := DoRemoveDir(id, m), WithPhase(s, id, Pruning(s.sessions[id].phase.obsolete - {m})).(dirs := s.dirs - {Final(m)});
    }
  }

  /** And when that is gone, the directories are as the commit run to its end leaves them. */
  lemma EndsCommitted(d: Dirs, s: State, id: nat)
    requires id in s.sessions && OnTheWay(d, s.dirs, s.sessions[id]) && s.sessions[id].phase == Pruning({})
    ensures Committed(d, s.sessions[id].n, s.sessions[id].hex, s.dirs)
  {
    var x := s.sessions[id];
    var renamed := Renamed(d, x.n, x.hex);
    hide Superseded, Renamed;
    forall name
      ensures PrunedAt(renamed, s.dirs, name)
    {
      assert Removing(renamed, s.dirs, {}, name);
    }
  }

  /** Any number of commit steps of one session, one after the other. */
  ghost predicate SoloRun(states: seq<State>, events: seq<Event>, id: nat) {
    && |states| == |events| + 1
    && forall i :: 0 <= i < |events| ==> CommitStep(events[i], id) && Step(states[i], events[i], states[i + 1])
  }

  lemma NameStays(s: State, e: Event, t: State, id: nat)
    requires id in s.sessions && CommitStep(e, id) && Step(s, e, t)
    ensures id in t.sessions && t.sessions[id].n == s.sessions[id].n && t.sessions[id].hex == s.sessions[id].hex
  {
    hide Surplus;
  }

  /** A session that checks, marks, renames, lists and prunes undisturbed does what the commit run to its
      end does: as long as it goes on it is on the way there, and done pruning it has arrived. */
  lemma {:induction false} SoloRunCommits(states: seq<State>, events: seq<Event>, id: nat, i: nat)
    requires SoloRun(states, events, id) && i < |states|
    requires id in states[0].sessions && states[0].sessions[id].phase.Sending?
    ensures id in states[i].sessions
    ensures states[i].sessions[id].n == states[0].sessions[id].n && states[i].sessions[id].hex == states[0].sessions[id].hex
    ensures OnTheWay(states[0].dirs, states[i].dirs, states[i].sessions[id])
    ensures states[i].sessions[id].phase == Pruning({}) ==>
              Committed(states[0].dirs, states[0].sessions[id].n, states[0].sessions[id].hex, states[i].dirs)
  {
    assert i == 0 ==> OnTheWay(states[0].dirs, states[i].dirs, states[i].sessions[id]);
    hide CommitStep, Step, OnTheWay, Committed;
    if i > 0 {
      SoloRunCommits(states, events, id, i - 1);
      StepStaysOnTheWay(states[0].dirs, states[i - 1], events[i - 1], states[i], id);
      NameStays(states[i - 1], events[i - 1], states[i], id);
    }
    if states[i].sessions[id].phase == Pruning({}) {
      EndsCommitted(states[0].dirs, states[i], id);
    }
  }
}
