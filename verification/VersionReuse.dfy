/**
 Whether a visible version is ever written again: only where two sessions carry its number, and then
 exactly where two sessions carry different greater ones.
 */
module VersionReuse {
  import opened Receiver
  import opened ReceiverLimits

  /** Step `i` leaves `n` visible, with something in it that was not there. */
  ghost predicate Rewritten(states: seq<State>, i: nat, n: nat)
    requires i + 1 < |states|
  {
    && Final(n) in states[i].dirs && Final(n) in states[i + 1].dirs
    && !SubDir(states[i + 1].dirs[Final(n)], states[i].dirs[Final(n)])
  }

  /** Two greater versions, different from each other, have sessions of theirs. */
  ghost predicate TwoGreaterCarried(s: State, n: nat) {
    exists c, d :: c in s.sessions && d in s.sessions && n < s.sessions[c].n < s.sessions[d].n
  }

  /** What is written again was emptied by a prune, and is renamed over by a second session of its number. */
  lemma RewritingNeedsTwins(states: seq<State>, events: seq<Event>, i: nat, n: nat)
    requires Run(states, events) && i < |events| && Rewritten(states, i, n)
    ensures CarriedTwice(states[i], n) && TwoGreaterCarried(states[i], n)
  {
    var s := states[i];
    VisibleVersionsOnlyShrink(states, events, i, n);
    assert s.dirs[Final(n)] == map[] && TwoGreaterIntact(s, n);
    var u, v :| n < u < v && Intact(s, u) && Intact(s, v);
    PublishedHavePublishers(states, events, i, u);
    PublishedHavePublishers(states, events, i, v);
  }

  /** With numbers that no two sessions share, a visible version is never written again. */
  lemma OwnNumbersNeverRewritten(states: seq<State>, events: seq<Event>, i: nat, n: nat)
    requires Run(states, events) && i < |events| && Final(n) in states[i].dirs && Final(n) in states[i + 1].dirs
    requires forall a, b :: a in states[i].sessions && b in states[i].sessions && a != b ==>
               states[i].sessions[a].n != states[i].sessions[b].n
    ensures SubDir(states[i + 1].dirs[Final(n)], states[i].dirs[Final(n)])
  {
    if Rewritten(states, i, n) {
      RewritingNeedsTwins(states, events, i, n);
    }
  }

  /******* The exact condition, by the numbers sessions carry *******/

  /** Sessions carry the numbers `numbers` gives them. */
  ghost predicate Numbered(numbers: map<nat, nat>, s: State) {
    forall id :: id in s.sessions ==> id in numbers && numbers[id] == s.sessions[id].n
  }

  lemma {:induction false} NumberedThroughout(states: seq<State>, events: seq<Event>, numbers: map<nat, nat>, i: nat)
    requires Run(states, events) && i <= |events| && Numbered(numbers, states[|events|])
    ensures Numbered(numbers, states[i])
    decreases |events| - i
  {
    hide Step;
    if i < |events| {
      NumberedThroughout(states, events, numbers, i + 1);
      assert Step(states[i], events[i], states[i + 1]);
      forall id | id in states[i].sessions
        ensures id in numbers && numbers[id] == states[i].sessions[id].n
      {
        SessionsStay(states[i], events[i], states[i + 1], id);
      }
    }
  }

  /** Some run of sessions with these numbers writes the visible version `n` again. */
  ghost predicate CanRewrite(numbers: map<nat, nat>, n: nat) {
    exists states, events, i :: Rewrites(numbers, states, events, i, n)
  }

  ghost predicate Rewrites(numbers: map<nat, nat>, states: seq<State>, events: seq<Event>, i: int, n: nat) {
    0 <= i < |events| && Run(states, events) && Numbered(numbers, states[|events|]) && Rewritten(states, i, n)
  }

  /** Two sessions `a` and `b` of one number, and two of different greater numbers. */
  ghost predicate Twins(numbers: map<nat, nat>, a: nat, b: nat, c: nat, d: nat) {
    && a in numbers && b in numbers && c in numbers && d in numbers
    && a != b && numbers[a] == numbers[b] && numbers[a] < numbers[c] < numbers[d]
  }

  ghost predicate Repeated(numbers: map<nat, nat>, n: nat) {
    exists a, b, c, d :: Twins(numbers, a, b, c, d) && numbers[a] == n
  }

  const TWIN := "89abcdef"

  /** The plan in which session `b` has marked another version `n` beforehand. */
  function TwinPlan(numbers: map<nat, nat>, a: nat, b: nat, c: nat, d: nat): Plan
    requires a in numbers && b in numbers && c in numbers && d in numbers
  {
    Plan(AboutToPublish(EMPTY, b, numbers[b], TWIN), a, c, d, numbers[a], numbers[c], numbers[d])
  }

  lemma TwinPlanFits(numbers: map<nat, nat>, a: nat, b: nat, c: nat, d: nat)
    requires Twins(numbers, a, b, c, d)
    ensures Fits(TwinPlan(numbers, a, b, c, d)) && Reachable(TwinPlan(numbers, a, b, c, d).base)
  {
    var n := numbers[b];
    assert EndsIn([EMPTY], [], EMPTY);
    assert Unused(EMPTY, n, TWIN);
    SendOne(EMPTY, b, n, TWIN);
    assert HEX[0] != TWIN[0];
  }

  /** The first version emptied, file by file. */
  function Emptied(p: Plan): State
    requires p.d in ThreeVersions(p).sessions
  {
    MarkerGone(p).(dirs := ThreeVersions(p).dirs[Final(p.n) := map[]])
  }

  lemma EmptiedReachable(p: Plan)
    requires Reachable(p.base) && Fits(p)
    ensures p.d in ThreeVersions(p).sessions && Reachable(Emptied(p))
  {
    MarkerGoneReachable(p);
    assert "data" in FILES && FILES - {"data"} == map[];
    assert MarkerGone(p).dirs[Final(p.n) := map[]] == ThreeVersions(p).dirs[Final(p.n) := map[]];
    hide Reachable, ThreeVersions, Fits;
    OneStepMore(MarkerGone(p), DoRemoveFile(p.d, p.n, "data"), Emptied(p));
  }

  /** The twin's session is still where it was. */
  lemma TwinWaits(numbers: map<nat, nat>, a: nat, b: nat, c: nat, d: nat)
    requires Twins(numbers, a, b, c, d)
    ensures var p := TwinPlan(numbers, a, b, c, d);
            && p.d in ThreeVersions(p).sessions
            && var s := Emptied(p);
               && b in s.sessions && s.sessions[b] == Session(p.n, TWIN, Marked)
               && Staging(p.n, TWIN) in s.dirs && s.dirs[Staging(p.n, TWIN)] == PAYLOAD
               && Final(p.n) in s.dirs && s.dirs[Final(p.n)] == map[]
               && Numbered(numbers, s)
  {
  }

  /** The twin's rename. */
  function Overwritten(s: State, b: nat, n: nat): State
    requires b in s.sessions
  {
    WithPhase(s, b, Published).(dirs := (s.dirs - {Staging(n, TWIN)})[Final(n) := PAYLOAD], published := s.published[n := PAYLOAD])
  }

  lemma OverwritingRewrites(s: State, b: nat, n: nat)
    requires b in s.sessions && s.sessions[b] == Session(n, TWIN, Marked)
    requires Staging(n, TWIN) in s.dirs && s.dirs[Staging(n, TWIN)] == PAYLOAD
    requires Final(n) in s.dirs && s.dirs[Final(n)] == map[]
    ensures Step(s, DoPublish(b), Overwritten(s, b, n))
    ensures Final(n) in Overwritten(s, b, n).dirs && !SubDir(Overwritten(s, b, n).dirs[Final(n)], s.dirs[Final(n)])
    ensures forall numbers :: Numbered(numbers, s) ==> Numbered(numbers, Overwritten(s, b, n))
  {
    assert MARKER in PAYLOAD;
  }

  /** Whatever the numbers, such four sessions have a run in which the second of a number renames over the first. */
  lemma TwinRewrites(numbers: map<nat, nat>, a: nat, b: nat, c: nat, d: nat)
    returns (states: seq<State>, events: seq<Event>)
    requires Twins(numbers, a, b, c, d)
    ensures events != [] && Run(states, events) && Numbered(numbers, states[|events|])
    ensures Rewritten(states, |events| - 1, numbers[a])
  {
    var p := TwinPlan(numbers, a, b, c, d);
    TwinPlanFits(numbers, a, b, c, d);
    EmptiedReachable(p);
    TwinWaits(numbers, a, b, c, d);
    var s, n := Emptied(p), numbers[a];
    OverwritingRewrites(s, b, n);
    var before, done :| EndsIn(before, done, s);
    states, events := before + [Overwritten(s, b, n)], done + [DoPublish(b)];
    hide *;
    OneStepLonger(before, done, s, DoPublish(b), Overwritten(s, b, n));
    LastIsRewritten(before, done, s, Overwritten(s, b, n), n);
  }

  lemma OneStepLonger(states: seq<State>, events: seq<Event>, s: State, e: Event, t: State)
    requires EndsIn(states, events, s) && Step(s, e, t)
    ensures Run(states + [t], events + [e])
    ensures |states| == |events| + 1 && (states + [t])[|events| + 1] == t
  {
    hide Step;
    var ss, es := states + [t], events + [e];
    forall i | 0 <= i < |es| ensures Step(ss[i], es[i], ss[i + 1]) {
      if i < |events| {
        assert Step(states[i], events[i], states[i + 1]);
      }
    }
  }

  lemma LastIsRewritten(states: seq<State>, events: seq<Event>, s: State, t: State, n: nat)
    requires EndsIn(states, events, s)
    requires Final(n) in s.dirs && Final(n) in t.dirs && !SubDir(t.dirs[Final(n)], s.dirs[Final(n)])
    ensures Rewritten(states + [t], |events|, n)
  {
    hide Step;
  }

  /** Sessions with given numbers can write a visible version again if and only if two of them have its
      number and two have different greater ones. */
  lemma RewrittenExactly(numbers: map<nat, nat>, n: nat)
    ensures CanRewrite(numbers, n) <==> Repeated(numbers, n)
  {
    hide *;
    if CanRewrite(numbers, n) {
      OnlyWhereRepeated(numbers, n);
    }
    if Repeated(numbers, n) {
      WhereverRepeated(numbers, n);
    }
  }

  lemma OnlyWhereRepeated(numbers: map<nat, nat>, n: nat)
    requires CanRewrite(numbers, n)
    ensures Repeated(numbers, n)
  {
    var states, events, i :| Rewrites(numbers, states, events, i, n);
    NumberedThroughout(states, events, numbers, i);
    RewritingNeedsTwins(states, events, i, n);
    var s := states[i];
    hide Run, Rewritten, Twins;
    CarriedIsNumbered(numbers, s, n);
  }

  lemma CarriedIsNumbered(numbers: map<nat, nat>, s: State, n: nat)
    requires Numbered(numbers, s) && CarriedTwice(s, n) && TwoGreaterCarried(s, n)
    ensures Repeated(numbers, n)
  {
    var a, b :| a != b && a in s.sessions && b in s.sessions && s.sessions[a].n == n && s.sessions[b].n == n;
    var c, d :| c in s.sessions && d in s.sessions && n < s.sessions[c].n < s.sessions[d].n;
    assert Twins(numbers, a, b, c, d) && numbers[a] == n;
  }

  lemma WhereverRepeated(numbers: map<nat, nat>, n: nat)
    requires Repeated(numbers, n)
    ensures CanRewrite(numbers, n)
  {
    var a, b, c, d :| Twins(numbers, a, b, c, d) && numbers[a] == n;
    var states, events := TwinRewrites(numbers, a, b, c, d);
    hide Run, Rewritten, Numbered, Twins;
    assert Rewrites(numbers, states, events, |events| - 1, n);
  }
}
