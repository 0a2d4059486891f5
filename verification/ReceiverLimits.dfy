/** How far the receiver's guarantees go: runs that reach the limits the invariant leaves open. */
module ReceiverLimits {
  import opened Receiver

  const HEX := "0123abcd"
  const FILES: Dir := map["data" := "x"]
  const PAYLOAD: Dir := FILES[MARKER := "complete\n"]

  ghost predicate EndsIn(states: seq<State>, events: seq<Event>, end: State) {
    Run(states, events) && states[|events|] == end
  }

  /** Some run of sessions, from the empty receiver, ends in `end`. */
  ghost predicate Reachable(end: State) {
    exists states, events :: EndsIn(states, events, end)
  }

  lemma OneStepMore(s: State, e: Event, t: State)
    requires Reachable(s) && Step(s, e, t)
    ensures Reachable(t)
  {
    hide Step;
    var states, events :| EndsIn(states, events, s);
    var ss, es := states + [t], events + [e];
    forall i | 0 <= i < |es| ensures Step(ss[i], es[i], ss[i + 1]) {
      if i < |events| {
        assert Step(states[i], events[i], states[i + 1]);
      }
    }
    assert EndsIn(ss, es, t);
  }

  /** The receiver after session `id` has published `m`. */
  function WithVersion(s: State, id: nat, m: nat): State {
    State(s.dirs[Final(m) := PAYLOAD], s.sessions[id := Session(m, HEX, Published)], s.published[m := PAYLOAD])
  }

  /** Number `m` is not published, and its staging name not in use. */
  ghost predicate Unused(s: State, m: nat, hex: string) {
    && Final(m) !in s.dirs && Staging(m, hex) !in s.dirs
    && forall i :: i in s.sessions ==> StagingOf(s.sessions[i]) != Staging(m, hex)
  }

  /** The receiver with session `id` about to publish `m`. */
  function AboutToPublish(s: State, id: nat, m: nat, hex: string): State {
    State(s.dirs[Staging(m, hex) := PAYLOAD], s.sessions[id := Session(m, hex, Marked)], s.published)
  }

  lemma SendOne(s: State, id: nat, m: nat, hex: string)
    requires Reachable(s) && id !in s.sessions && Unused(s, m, hex)
    ensures Reachable(AboutToPublish(s, id, m, hex))
  {
    var name := Staging(m, hex);
    var begun := s.(sessions := s.sessions[id := Session(m, hex, Sending)]);
    var sent := begun.(dirs := s.dirs[name := FILES]);
    hide Reachable;
    OneStepMore(s, DoBegin(id, m, hex), begun);
    OneStepMore(begun, DoSend(id, FILES), sent);
    OneStepMore(sent, DoCheck(id), WithPhase(sent, id, Checked));
    MarkOne(s, WithPhase(sent, id, Checked), id, m, hex);
  }

  lemma MarkOne(s: State, checked: State, id: nat, m: nat, hex: string)
    requires Reachable(checked)
    requires checked.dirs == s.dirs[Staging(m, hex) := FILES] && checked.published == s.published
    requires checked.sessions == s.sessions[id := Session(m, hex, Checked)]
    ensures Reachable(AboutToPublish(s, id, m, hex))
  {
    hide Reachable;
    OneStepMore(checked, DoMark(id), AboutToPublish(s, id, m, hex));
  }

  lemma PublishOne(s: State, id: nat, m: nat)
    requires Reachable(s) && id !in s.sessions && Unused(s, m, HEX)
    ensures Reachable(WithVersion(s, id, m))
  {
    SendOne(s, id, m, HEX);
    PublishMarked(s, AboutToPublish(s, id, m, HEX), id, m);
    hide Reachable, WithVersion, AboutToPublish, Unused, Publish;
    OneStepMore(AboutToPublish(s, id, m, HEX), DoPublish(id), WithVersion(s, id, m));
  }

  lemma PublishMarked(s: State, marked: State, id: nat, m: nat)
    requires Staging(m, HEX) !in s.dirs && Final(m) !in s.dirs
    requires marked == AboutToPublish(s, id, m, HEX)
    ensures Publish(marked, WithVersion(s, id, m), id)
  {
    assert marked.dirs - {Staging(m, HEX)} == s.dirs;
  }

  /******* Three versions, and the first of them pruned *******/

  /** From `base`, sessions `a`, `c` and `d` publish `n`, `u` and `v`. */
  datatype Plan = Plan(base: State, a: nat, c: nat, d: nat, n: nat, u: nat, v: nat)

  /** Nothing is published at the base, and the plan's sessions and numbers are free. */
  ghost predicate Fits(p: Plan) {
    && p.n < p.u < p.v && p.a != p.c && p.a != p.d && p.c != p.d
    && p.a !in p.base.sessions && p.c !in p.base.sessions && p.d !in p.base.sessions
    && Unused(p.base, p.n, HEX) && Unused(p.base, p.u, HEX) && Unused(p.base, p.v, HEX)
    && (forall name :: name in p.base.dirs ==> name.Staging?)
  }

  function ThreeVersions(p: Plan): State {
    WithVersion(WithVersion(WithVersion(p.base, p.a, p.n), p.c, p.u), p.d, p.v)
  }

  lemma ThreeVersionsReachable(p: Plan)
    requires Reachable(p.base) && Fits(p)
    ensures Reachable(ThreeVersions(p))
  {
    var s1 := WithVersion(p.base, p.a, p.n);
    var s2 := WithVersion(s1, p.c, p.u);
    assert Unused(s1, p.u, HEX) && Unused(s2, p.v, HEX);
    assert p.c !in s1.sessions && p.d !in s2.sessions;
    hide Reachable, Unused, WithVersion;
    PublishOne(p.base, p.a, p.n);
    PublishOne(s1, p.c, p.u);
    PublishOne(s2, p.d, p.v);
  }

  /** Session `id`, having published, at one point of its listing. */
  function Looking(s: State, id: nat, pending: set<nat>, found: set<nat>): State
    requires id in s.sessions
  {
    WithPhase(s, id, Listing(pending, found))
  }

  lemma LookOnce(s: State, id: nat, pending: set<nat>, found: set<nat>, m: nat)
    requires id in s.sessions && Reachable(Looking(s, id, pending, found)) && m in pending
    requires Final(m) in s.dirs && MARKER in s.dirs[Final(m)]
    ensures Reachable(Looking(s, id, pending - {m}, found + {m}))
  {
    hide Reachable;
    OneStepMore(Looking(s, id, pending, found), DoLook(id, m), Looking(s, id, pending - {m}, found + {m}));
  }

  lemma ThreeThere(p: Plan)
    requires Fits(p)
    ensures var s := ThreeVersions(p);
            && p.d in s.sessions && s.sessions[p.d].phase == Published
            && Final(p.n) in s.dirs && Final(p.u) in s.dirs && Final(p.v) in s.dirs
            && s.dirs[Final(p.n)] == s.dirs[Final(p.u)] == s.dirs[Final(p.v)] == PAYLOAD
            && (set name | name in s.dirs && name.Final? :: name.n) == {p.n, p.u, p.v}
  {
    OnlyThese(p.base.dirs, p.n, p.u, p.v);
  }

  lemma OnlyThese(dirs: map<Name, Dir>, n: nat, u: nat, v: nat)
    requires forall name :: name in dirs ==> name.Staging?
    ensures var all := dirs[Final(n) := PAYLOAD][Final(u) := PAYLOAD][Final(v) := PAYLOAD];
            (set name | name in all && name.Final? :: name.n) == {n, u, v}
  {
    var all := dirs[Final(n) := PAYLOAD][Final(u) := PAYLOAD][Final(v) := PAYLOAD];
    assert forall name :: name in all && name.Final? ==> name in {Final(n), Final(u), Final(v)};
    assert Final(n) in all && Final(u) in all && Final(v) in all;
  }

  /** The last session lists the versions and finds all three complete. */
  lemma ThreeFound(p: Plan)
    requires Reachable(p.base) && Fits(p)
    ensures p.d in ThreeVersions(p).sessions
    ensures Reachable(Looking(ThreeVersions(p), p.d, {}, {p.n, p.u, p.v}))
  {
    ThreeVersionsReachable(p);
    ThreeThere(p);
    assert MARKER in PAYLOAD && p.n < p.u < p.v;
    hide *;
    ListOnce(ThreeVersions(p), p.d, {p.n, p.u, p.v});
    ThreeLooks(ThreeVersions(p), p.d, p.n, p.u, p.v);
  }

  lemma ListOnce(s: State, id: nat, all: set<nat>)
    requires Reachable(s) && id in s.sessions && s.sessions[id].phase.Published?
    requires (set name | name in s.dirs && name.Final? :: name.n) == all
    ensures Reachable(Looking(s, id, all, {}))
  {
    hide Reachable;
    OneStepMore(s, DoList(id), Looking(s, id, all, {}));
  }

  lemma ThreeLooks(s: State, id: nat, n: nat, u: nat, v: nat)
    requires n < u < v && id in s.sessions && Reachable(Looking(s, id, {n, u, v}, {}))
    requires Final(n) in s.dirs && Final(u) in s.dirs && Final(v) in s.dirs
    requires MARKER in s.dirs[Final(n)] && MARKER in s.dirs[Final(u)] && MARKER in s.dirs[Final(v)]
    ensures Reachable(Looking(s, id, {}, {n, u, v}))
  {
    hide *;
    LookOnce(s, id, {n, u, v}, {}, n);
    assert {n, u, v} - {n} == {u, v} && {} + {n} == {n};
    LookOnce(s, id, {u, v}, {n}, u);
    assert {u, v} - {u} == {v} && {n} + {u} == {n, u};
    LookOnce(s, id, {v}, {n, u}, v);
    assert {v} - {v} == {} && {n, u} + {v} == {n, u, v};
  }

  /** Three versions, the marker of the first one removed. */
  function MarkerGone(p: Plan): State
    requires p.d in ThreeVersions(p).sessions
  {
    WithPhase(ThreeVersions(p), p.d, Pruning({p.n})).(dirs := ThreeVersions(p).dirs[Final(p.n) := FILES])
  }

  lemma MarkerGoneReachable(p: Plan)
    requires Reachable(p.base) && Fits(p)
    ensures p.d in ThreeVersions(p).sessions && Reachable(MarkerGone(p))
  {
    assert p.n < p.u < p.v;
    ThreeFound(p);
    ThreeThere(p);
    PruneMarker(ThreeVersions(p), p.d, p.n, p.u, p.v);
    hide Reachable, ThreeVersions, Fits;
  }

  lemma PruneMarker(s: State, id: nat, n: nat, u: nat, v: nat)
    requires n < u < v && id in s.sessions && Reachable(Looking(s, id, {}, {n, u, v}))
    requires Final(n) in s.dirs && s.dirs[Final(n)] == PAYLOAD
    ensures Reachable(WithPhase(s, id, Pruning({n})).(dirs := s.dirs[Final(n) := FILES]))
  {
    ChooseFirst(s, id, n, u, v);
    assert PAYLOAD - {MARKER} == FILES;
    hide Reachable;
    OneStepMore(Looking(s, id, {}, {n, u, v}), DoChoose(id), WithPhase(s, id, Pruning({n})));
    OneStepMore(WithPhase(s, id, Pruning({n})), DoRemoveFile(id, n, MARKER),
                WithPhase(s, id, Pruning({n})).(dirs := s.dirs[Final(n) := FILES]));
  }

  lemma ChooseFirst(s: State, id: nat, n: nat, u: nat, v: nat)
    requires n < u < v && id in s.sessions
    ensures Choose(Looking(s, id, {}, {n, u, v}), WithPhase(s, id, Pruning({n})), id)
  {
    SurplusOfThree(n, u, v);
    var found := {n, u, v};
    assert (set x | x in found && Surplus(found, x)) == {n};
    assert WithPhase(Looking(s, id, {}, found), id, Pruning({n})) == WithPhase(s, id, Pruning({n}));
  }

  lemma SurplusOfThree(n: nat, u: nat, v: nat)
    requires n < u < v
    ensures forall x :: x in {n, u, v} && Surplus({n, u, v}, x) <==> x == n
  {
    var found := {n, u, v};
    assert u in found && v in found && Surplus(found, n);
    assert !Surplus(found, u) && !Surplus(found, v);
  }

  lemma FromEmpty(n: nat, u: nat, v: nat)
    requires n < u < v
    ensures Fits(Plan(EMPTY, 1, 2, 3, n, u, v)) && Reachable(EMPTY)
  {
    assert EndsIn([EMPTY], [], EMPTY);
  }

  /** For all numbers n < u < v there is a run that publishes just these and ends with the first one
      visible, its files there and its marker gone: two greater versions are as few as it takes. */
  lemma MarkerCanGoFirst(n: nat, u: nat, v: nat) returns (states: seq<State>, events: seq<Event>)
    requires n < u < v
    ensures Run(states, events)
    ensures var end := states[|events|];
            && end.published.Keys == {n, u, v}
            && Final(n) in end.dirs && end.dirs[Final(n)] != map[] && MARKER !in end.dirs[Final(n)]
  {
    var p := Plan(EMPTY, 1, 2, 3, n, u, v);
    FromEmpty(n, u, v);
    MarkerGoneReachable(p);
    states, events :| EndsIn(states, events, MarkerGone(p));
    assert "data" in FILES && MARKER !in FILES;
  }

  /** The bound on the cutoff is needed. Sweeping the marker of any commit in progress, as a cutoff past
      its number allows, makes that commit publish a version that was never marked, in a state that no run
      with a day between cleanups and commits reaches. */
  lemma LateCutoffPublishesUnmarked(s: State, id: nat, cutoff: nat) returns (swept: State, t: State)
    requires Safe(s) && id in s.sessions && s.sessions[id].phase.Marked? && s.sessions[id].n < cutoff
    requires StagingOf(s.sessions[id]) in s.dirs && Final(s.sessions[id].n) !in s.dirs
    ensures Sweep(s, swept, StagingOf(s.sessions[id]), cutoff, MARKER) && Publish(swept, t, id)
    ensures var final := Final(s.sessions[id].n); final in t.dirs && MARKER !in t.dirs[final]
    ensures !Safe(t)
  {
    var x := s.sessions[id];
    var name := StagingOf(x);
    assert SessionSafe(s, id);
    swept := s.(dirs := s.dirs[name := s.dirs[name] - {MARKER}]);
    t := WithPhase(swept, id, Published).(
      dirs := (swept.dirs - {name})[Final(x.n) := swept.dirs[name]],
      published := swept.published[x.n := swept.dirs[name]]);
    assert !VersionSafe(t, x.n);
  }
}
