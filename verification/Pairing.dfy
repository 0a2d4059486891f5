/** One-shot pairing codes with a limit on wrong guesses per remote. */
module Pairing {

  const PAIRING_TTL := 600
  const MAX_FAILURES := 5
  const WINDOW := 60

  datatype Code = Code(createdAt: int, expiresAt: int, used: bool)

  datatype Outcome = Paired | Limited | Invalid | AlreadyUsed | Expired

  datatype State = State(values: map<string, Code>, failures: map<string, seq<int>>)

  const EMPTY := State(map[], map[])

  /** The failures less than a minute old. */
  function Recent(failures: seq<int>, now: int): (recent: seq<int>)
    ensures forall t :: t in recent <==> t in failures && now < t + 60
    ensures |recent| <= |failures|
  {
    if failures == [] then []
    else
      var rest, last := Recent(failures[..|failures| - 1], now), failures[|failures| - 1];
      assert failures == failures[..|failures| - 1] + [last];
      if now - last < WINDOW then rest + [last] else rest
  }

  /** Of failures in two stretches, those of both are kept, one after the other. */
  lemma {:induction false} RecentInOrder(a: seq<int>, b: seq<int>, now: int)
    ensures Recent(a + b, now) == Recent(a, now) + Recent(b, now)
  {
    if b == [] {
      assert a + b == a;
    } else {
      var n := |b| - 1;
      RecentInOrder(a, b[..n], now);
      assert (a + b)[..|a + b| - 1] == a + b[..n];
    }
  }

  function FailuresOf(s: State, remote: string): seq<int> {
    if remote in s.failures then s.failures[remote] else []
  }

  function Issued(digest: string -> string, s: State, code: string, now: int): State {
    s.(values := map[digest(code) := Code(now, now + PAIRING_TTL, false)])
  }

  function Judge(digest: string -> string, s: State, code: string, remote: string, now: int): Outcome {
    var key := digest(code);
    if |Recent(FailuresOf(s, remote), now)| >= MAX_FAILURES then Limited
    else if key !in s.values then Invalid
    else if s.values[key].used then AlreadyUsed
    else if now > s.values[key].expiresAt then Expired
    else Paired
  }

  /** The failures are pruned at every attempt; only an unknown code adds one. */
  function Consumed(digest: string -> string, s: State, code: string, remote: string, now: int): State {
    var recent, verdict := Recent(FailuresOf(s, remote), now), Judge(digest, s, code, remote, now);
    State(
      if verdict.Paired? then s.values[digest(code) := s.values[digest(code)].(used := true)] else s.values,
      s.failures[remote := if verdict.Invalid? then recent + [now] else recent])
  }

  class PairingCodes {
    const digest: string -> string
    var values: map<string, Code>
    var failures: map<string, seq<int>>

    constructor (digest: string -> string)
      ensures this.digest == digest && State(values, failures) == EMPTY
    {
      this.digest, values, failures := digest, map[], map[];
    }

    method Issue(code: string, now: int)
      modifies this
      ensures State(values, failures) == Issued(digest, old(State(values, failures)), code, now)
      ensures values == map[digest(code) := Code(now, now + 600, false)] && failures == old(failures)
    {
      values := map[];
      values := values[digest(code) := Code(now, now + PAIRING_TTL, false)];
    }

    method Consume(code: string, remote: string, now: int) returns (outcome: Outcome)
      modifies this
      ensures outcome == Judge(digest, old(State(values, failures)), code, remote, now)
      ensures State(values, failures) == Consumed(digest, old(State(values, failures)), code, remote, now)
      ensures var known, key := if remote in old(failures) then old(failures)[remote] else [], digest(code);
              var recent := Recent(known, now);
              && (outcome == Limited <==> |recent| >= 5)
              && (outcome == Invalid <==> |recent| < 5 && key !in old(values))
              && (outcome == AlreadyUsed <==> |recent| < 5 && key in old(values) && old(values)[key].used)
              && (outcome == Expired <==> |recent| < 5 && key in old(values) && !old(values)[key].used && now > old(values)[key].expiresAt)
              && failures == old(failures)[remote := if outcome == Invalid then recent + [now] else recent]
      ensures outcome != Paired ==> values == old(values)
      ensures outcome == Paired ==>
                var key := digest(code);
                && values.Keys == old(values).Keys && (forall k :: k in values && k != key ==> values[k] == old(values)[k])
                && values[key] == Code(old(values)[key].createdAt, old(values)[key].expiresAt, true)
    {
      var known := if remote in failures then failures[remote] else [];
      var recent := [];
      for i := 0 to |known|
        invariant recent == Recent(known[..i], now)
      {
        assert known[..i + 1][..i] == known[..i];
        if now - known[i] < WINDOW { recent := recent + [known[i]]; }
      }
      assert known[..|known|] == known;
      failures := failures[remote := recent];
      if |recent| >= MAX_FAILURES { return Limited; }
      var key := digest(code);
      if key !in values {
        failures := failures[remote := recent + [now]];
        return Invalid;
      }
      if values[key].used { return AlreadyUsed; }
      if now > values[key].expiresAt { return Expired; }
      values := values[key := values[key].(used := true)];
      outcome := Paired;
    }
  }

  /******* Runs *******/

  datatype Event = Issue(code: string, now: int) | Try(code: string, remote: string, now: int)

  /** The state after the first `n` events. */
  function After(digest: string -> string, run: seq<Event>, n: nat): State
    requires n <= |run|
  {
    if n == 0 then EMPTY
    else
      var s := After(digest, run, n - 1);
      match run[n - 1]
      case Issue(code, now) => Issued(digest, s, code, now)
      case Try(code, remote, now) => Consumed(digest, s, code, remote, now)
  }

  predicate Succeeds(digest: string -> string, run: seq<Event>, i: nat)
    requires i < |run|
  {
    run[i].Try? && Judge(digest, After(digest, run, i), run[i].code, run[i].remote, run[i].now) == Paired
  }

  predicate Guesses(digest: string -> string, run: seq<Event>, i: nat, remote: string)
    requires i < |run|
  {
    && run[i].Try? && run[i].remote == remote
    && Judge(digest, After(digest, run, i), run[i].code, remote, run[i].now) == Invalid
  }

  /** The last code issued among the first `n` events, or -1. */
  function LastIssue(run: seq<Event>, n: nat): (k: int)
    requires n <= |run|
    ensures -1 <= k < n && (k >= 0 ==> run[k].Issue?)
    ensures forall i :: k < i < n ==> run[i].Try?
  {
    if n == 0 then -1 else if run[n - 1].Issue? then n - 1 else LastIssue(run, n - 1)
  }

  ghost predicate PairedSince(digest: string -> string, run: seq<Event>, k: int, n: nat)
    requires n <= |run|
  {
    exists i: nat :: k < i < n && Succeeds(digest, run, i)
  }

  /** What one attempt does to the stored codes. */
  lemma AttemptOnCodes(digest: string -> string, run: seq<Event>, i: nat)
    requires i < |run| && run[i].Try?
    ensures var before, after, key := After(digest, run, i).values, After(digest, run, i + 1).values, digest(run[i].code);
            if Succeeds(digest, run, i)
            then key in before && !before[key].used && run[i].now <= before[key].expiresAt
                 && after == before[key := before[key].(used := true)]
            else after == before
  {
  }

  lemma PairedSinceGrows(digest: string -> string, run: seq<Event>, k: int, n: nat)
    requires n < |run| && k < n
    ensures PairedSince(digest, run, k, n + 1) <==> PairedSince(digest, run, k, n) || Succeeds(digest, run, n)
  {
  }

  /** The stored codes: just the last one issued, used if somebody has paired since. */
  ghost predicate CodesKept(digest: string -> string, run: seq<Event>, n: nat)
    requires n <= |run|
  {
    var k, values := LastIssue(run, n), After(digest, run, n).values;
    if k < 0 then values == map[] && !PairedSince(digest, run, k, n)
    else values == map[digest(run[k].code) := Code(run[k].now, run[k].now + PAIRING_TTL, PairedSince(digest, run, k, n))]
  }

  lemma CodesKeptAfterTry(digest: string -> string, run: seq<Event>, n: nat)
    requires n < |run| && run[n].Try? && CodesKept(digest, run, n)
    ensures CodesKept(digest, run, n + 1)
  {
    AttemptOnCodes(digest, run, n);
    PairedSinceGrows(digest, run, LastIssue(run, n), n);
    assert LastIssue(run, n + 1) == LastIssue(run, n);
    hide After, Succeeds, PairedSince, LastIssue;
    if Succeeds(digest, run, n) {
      var k := LastIssue(run, n);
      SpendOnly(digest(run[k].code), After(digest, run, n).values[digest(run[k].code)], digest(run[n].code));
    }
  }

  lemma SpendOnly(key: string, code: Code, spent: string)
    requires spent in map[key := code]
    ensures map[key := code][spent := code.(used := true)] == map[key := code.(used := true)] && spent == key
  {
  }

  lemma CodesKeptAfterIssue(digest: string -> string, run: seq<Event>, n: nat)
    requires n < |run| && run[n].Issue?
    ensures CodesKept(digest, run, n + 1)
  {
  }

  lemma {:induction false} OnlyTheLastCodeIsKept(digest: string -> string, run: seq<Event>, n: nat)
    requires n <= |run|
    ensures CodesKept(digest, run, n)
  {
    if n > 0 {
      hide *;
      OnlyTheLastCodeIsKept(digest, run, n - 1);
      if run[n - 1].Try? { CodesKeptAfterTry(digest, run, n - 1); } else { CodesKeptAfterIssue(digest, run, n - 1); }
    }
  }

  /** A pairing uses the code issued last, within ten minutes, and is the first one to. */
  lemma PairingUsesTheLastCode(digest: string -> string, run: seq<Event>, i: nat)
    requires i < |run| && Succeeds(digest, run, i)
    ensures var k := LastIssue(run, i);
            && k >= 0 && digest(run[k].code) == digest(run[i].code) && run[i].now <= run[k].now + PAIRING_TTL
            && forall j: nat :: k < j < i ==> !Succeeds(digest, run, j)
  {
    OnlyTheLastCodeIsKept(digest, run, i);
    AttemptOnCodes(digest, run, i);
    hide After, Succeeds;
  }

  /** Between two pairings a code was issued. */
  lemma PairingsNeedCodes(digest: string -> string, run: seq<Event>, i: nat, j: nat)
    requires i < j < |run| && Succeeds(digest, run, i) && Succeeds(digest, run, j)
    ensures i < LastIssue(run, j)
  {
    PairingUsesTheLastCode(digest, run, j);
  }

  /** If no two codes drawn are equal and digests do not collide, no code pairs twice. */
  lemma CodePairsOnce(digest: string -> string, run: seq<Event>, i: nat, j: nat)
    requires forall x, y :: digest(x) == digest(y) ==> x == y
    requires forall k, m :: 0 <= k < m < |run| && run[k].Issue? && run[m].Issue? ==> run[k].code != run[m].code
    requires i < j < |run| && Succeeds(digest, run, i) && Succeeds(digest, run, j)
    ensures run[i].code != run[j].code
  {
    PairingsNeedCodes(digest, run, i, j);
    PairingUsesTheLastCode(digest, run, i);
    PairingUsesTheLastCode(digest, run, j);
  }

  function Pairings(digest: string -> string, run: seq<Event>, n: nat): nat
    requires n <= |run|
  {
    if n == 0 then 0 else Pairings(digest, run, n - 1) + if Succeeds(digest, run, n - 1) then 1 else 0
  }

  function Codes(run: seq<Event>, n: nat): nat
    requires n <= |run|
  {
    if n == 0 then 0 else Codes(run, n - 1) + if run[n - 1].Issue? then 1 else 0
  }

  /** One while the last code is unused, else none. */
  ghost function Spare(digest: string -> string, run: seq<Event>, n: nat): nat
    requires n <= |run|
  {
    if LastIssue(run, n) >= 0 && !PairedSince(digest, run, LastIssue(run, n), n) then 1 else 0
  }

  /** A pairing takes the spare code; any other attempt leaves it. */
  lemma SpareAfterTry(digest: string -> string, run: seq<Event>, n: nat)
    requires n < |run| && run[n].Try?
    ensures Spare(digest, run, n + 1) == if Succeeds(digest, run, n) then 0 else Spare(digest, run, n)
    ensures Succeeds(digest, run, n) ==> Spare(digest, run, n) == 1
  {
    assert LastIssue(run, n + 1) == LastIssue(run, n);
    PairedSinceGrows(digest, run, LastIssue(run, n), n);
    if Succeeds(digest, run, n) { FirstUseOfCode(digest, run, n); }
    hide Succeeds, After, PairedSince, LastIssue;
  }

  lemma NothingCounted(digest: string -> string, run: seq<Event>)
    ensures Pairings(digest, run, 0) == Spare(digest, run, 0) == 0
  {
  }

  /** One more event adds no more pairings and spare codes than codes. */
  lemma CountOneMore(digest: string -> string, run: seq<Event>, n: nat)
    requires n < |run|
    ensures Pairings(digest, run, n + 1) + Spare(digest, run, n + 1) + Codes(run, n)
            <= Pairings(digest, run, n) + Spare(digest, run, n) + Codes(run, n + 1)
  {
    assert Succeeds(digest, run, n) ==> run[n].Try?;
    hide Succeeds, PairedSince, LastIssue;
    if run[n].Try? { SpareAfterTry(digest, run, n); }
    assert Spare(digest, run, n + 1) <= 1;
  }

  lemma FirstUseOfCode(digest: string -> string, run: seq<Event>, i: nat)
    requires i < |run| && Succeeds(digest, run, i)
    ensures LastIssue(run, i) >= 0 && !PairedSince(digest, run, LastIssue(run, i), i)
  {
    PairingUsesTheLastCode(digest, run, i);
    hide Succeeds, After, LastIssue;
  }

  /** Pairings never outnumber codes, whatever is tried and whatever the clock does. */
  lemma {:induction false} PairingsNeverOutnumberCodes(digest: string -> string, run: seq<Event>, n: nat)
    requires n <= |run|
    ensures Pairings(digest, run, n) + Spare(digest, run, n) <= Codes(run, n)
  {
    hide *;
    if n == 0 {
      NothingCounted(digest, run);
    } else {
      PairingsNeverOutnumberCodes(digest, run, n - 1);
      CountOneMore(digest, run, n - 1);
    }
  }

  /******* Wrong guesses *******/

  /** The times of a remote's wrong guesses among the first `n` events. */
  function WrongGuesses(digest: string -> string, run: seq<Event>, n: nat, remote: string): seq<int>
    requires n <= |run|
  {
    if n == 0 then []
    else if Guesses(digest, run, n - 1, remote) then WrongGuesses(digest, run, n - 1, remote) + [run[n - 1].now]
    else WrongGuesses(digest, run, n - 1, remote)
  }

  ghost predicate ClockGoesOn(run: seq<Event>) {
    forall i, j :: 0 <= i < j < |run| ==> run[i].now <= run[j].now
  }

  /** Pruning at an earlier moment does not change what counts as recent later. */
  lemma {:induction false} RecentAfterPruning(failures: seq<int>, earlier: int, now: int)
    requires earlier <= now
    ensures Recent(Recent(failures, earlier), now) == Recent(failures, now)
  {
    if failures != [] {
      var front, last := failures[..|failures| - 1], failures[|failures| - 1];
      RecentAfterPruning(front, earlier, now);
      if earlier - last < WINDOW {
        var pruned := Recent(front, earlier) + [last];
        assert pruned[..|pruned| - 1] == Recent(front, earlier);
      }
    }
  }

  lemma RecentOfOneMore(failures: seq<int>, last: int, now: int)
    ensures Recent(failures + [last], now) ==
            if now - last < WINDOW then Recent(failures, now) + [last] else Recent(failures, now)
  {
  }

  /** What one event does to a remote's failures. */
  lemma EventOnFailures(digest: string -> string, run: seq<Event>, i: nat, remote: string)
    requires i < |run|
    ensures var before, after := FailuresOf(After(digest, run, i), remote), FailuresOf(After(digest, run, i + 1), remote);
            && (!(run[i].Try? && run[i].remote == remote) ==> after == before && !Guesses(digest, run, i, remote))
            && (Guesses(digest, run, i, remote) ==>
                  after == Recent(before, run[i].now) + [run[i].now] && |Recent(before, run[i].now)| < MAX_FAILURES)
            && (run[i].Try? && run[i].remote == remote && !Guesses(digest, run, i, remote) ==>
                  after == Recent(before, run[i].now))
  {
  }

  /** Pruning at `earlier` and noting one more failure, seen from `now`. */
  lemma RecentAfterOneMore(known: seq<int>, guesses: seq<int>, earlier: int, now: int)
    requires earlier <= now && Recent(known, now) == Recent(guesses, now)
    ensures Recent(Recent(known, earlier), now) == Recent(guesses, now)
    ensures Recent(Recent(known, earlier) + [earlier], now) == Recent(guesses + [earlier], now)
  {
    RecentAfterPruning(known, earlier, now);
    RecentOfOneMore(Recent(known, earlier), earlier, now);
    RecentOfOneMore(guesses, earlier, now);
  }

  lemma NothingGuessed(digest: string -> string, run: seq<Event>, remote: string)
    ensures FailuresOf(After(digest, run, 0), remote) == WrongGuesses(digest, run, 0, remote) == []
  {
  }

  lemma OneMoreGuess(digest: string -> string, run: seq<Event>, n: nat, remote: string)
    requires n < |run|
    ensures var guesses := WrongGuesses(digest, run, n, remote);
            WrongGuesses(digest, run, n + 1, remote) ==
              if Guesses(digest, run, n, remote) then guesses + [run[n].now] else guesses
  {
    hide Guesses;
  }

  /** What is remembered of a remote is enough to know its recent guesses. */
  lemma {:induction false} RecentGuessesKnown(digest: string -> string, run: seq<Event>, n: nat, remote: string, now: int)
    requires n <= |run| && forall i :: 0 <= i < n ==> run[i].now <= now
    ensures Recent(FailuresOf(After(digest, run, n), remote), now) == Recent(WrongGuesses(digest, run, n, remote), now)
  {
    hide *;
    if n > 0 {
      RecentGuessesKnown(digest, run, n - 1, remote, now);
      EventOnFailures(digest, run, n - 1, remote);
      OneMoreGuess(digest, run, n - 1, remote);
      var known, guesses := FailuresOf(After(digest, run, n - 1), remote), WrongGuesses(digest, run, n - 1, remote);
      RecentAfterOneMore(known, guesses, run[n - 1].now, now);
    } else {
      NothingGuessed(digest, run, remote);
    }
  }

  /** The times within the `span` readings of the clock from `t`. */
  function Within(times: seq<int>, t: int, span: nat): seq<int> {
    if times == [] then []
    else
      var rest, last := Within(times[..|times| - 1], t, span), times[|times| - 1];
      if t <= last < t + span then rest + [last] else rest
  }

  lemma {:induction false} WithinIsRecent(times: seq<int>, t: int, now: int)
    requires now < t + WINDOW
    ensures |Within(times, t, WINDOW)| <= |Recent(times, now)|
  {
    if times != [] {
      WithinIsRecent(times[..|times| - 1], t, now);
    }
  }

  lemma {:induction false} ShorterSpan(times: seq<int>, t: int, a: nat, b: nat)
    requires a <= b
    ensures |Within(times, t, a)| <= |Within(times, t, b)|
  {
    if times != [] {
      ShorterSpan(times[..|times| - 1], t, a, b);
    }
  }

  /** No remote gets more than five wrong codes looked at within any minute. */
  lemma {:induction false} FiveWrongGuessesAMinute(digest: string -> string, run: seq<Event>, n: nat, remote: string, t: int)
    requires n <= |run| && ClockGoesOn(run)
    ensures |Within(WrongGuesses(digest, run, n, remote), t, WINDOW)| <= MAX_FAILURES
  {
    hide Guesses, Recent, After;
    if n > 0 {
      FiveWrongGuessesAMinute(digest, run, n - 1, remote, t);
      if Guesses(digest, run, n - 1, remote) {
        var before, now := WrongGuesses(digest, run, n - 1, remote), run[n - 1].now;
        assert (before + [now])[..|before|] == before;
        if t <= now < t + WINDOW {
          RecentGuessesKnown(digest, run, n - 1, remote, now);
          EventOnFailures(digest, run, n - 1, remote);
          WithinIsRecent(before, t, now);
        }
      }
    }
  }

  /** In every history with a clock that goes on, at most five wrong codes of the remote are looked at
      within any `span` readings of it. */
  ghost predicate LimitHolds(digest: string -> string, remote: string, span: nat) {
    forall run, n, t :: ClockGoesOn(run) && 0 <= n <= |run| ==>
      |Within(WrongGuesses(digest, run, n, remote), t, span)| <= MAX_FAILURES
  }

  /** The limit holds for spans of a minute and shorter, and for no longer one. */
  lemma GuessLimitExactly(digest: string -> string, remote: string, span: nat)
    ensures LimitHolds(digest, remote, span) <==> span <= WINDOW
  {
    if span <= WINDOW {
      forall run, n, t | ClockGoesOn(run) && 0 <= n <= |run|
        ensures |Within(WrongGuesses(digest, run, n, remote), t, span)| <= MAX_FAILURES
      {
        FiveWrongGuessesAMinute(digest, run, n, remote, t);
        ShorterSpan(WrongGuesses(digest, run, n, remote), t, span, WINDOW);
      }
    } else {
      TenGuessesInSixtyOneSeconds(digest, remote);
      GuessesCount(digest, TenTries(remote), 10, remote, 0, span);
      assert !LimitHolds(digest, remote, span);
    }
  }

  lemma {:induction false} GuessesCount(digest: string -> string, run: seq<Event>, n: nat, remote: string, t: int, span: nat)
    requires n <= |run| && forall i :: 0 <= i < n ==> Guesses(digest, run, i, remote) && t <= run[i].now < t + span
    ensures |Within(WrongGuesses(digest, run, n, remote), t, span)| == n
  {
    hide Guesses;
    if n > 0 {
      GuessesCount(digest, run, n - 1, remote, t, span);
      var before := WrongGuesses(digest, run, n - 1, remote);
      assert (before + [run[n - 1].now])[..|before|] == before;
    }
  }

  function TenTries(remote: string): (run: seq<Event>)
    ensures |run| == 10 && forall i :: 0 <= i < 10 ==> run[i] == Try("x", remote, if i < 5 then 0 else WINDOW)
  {
    seq(10, i => Try("x", remote, if i < 5 then 0 else WINDOW))
  }

  lemma TriesGoOn(remote: string)
    ensures ClockGoesOn(TenTries(remote))
  {
    hide TenTries;
  }

  lemma NoTryYet(digest: string -> string, remote: string)
    ensures GuessedSoFar(digest, TenTries(remote), 0, remote)
  {
    assert After(digest, TenTries(remote), 0) == EMPTY;
    hide TenTries, After;
  }

  /** The minute is half open: ten guesses fit between one moment and the same moment a minute on. */
  lemma TenGuessesInSixtyOneSeconds(digest: string -> string, remote: string)
    ensures ClockGoesOn(TenTries(remote))
    ensures forall i :: 0 <= i < 10 ==> Guesses(digest, TenTries(remote), i, remote)
  {
    hide *;
    TriesGoOn(remote);
    NoTryYet(digest, remote);
    for n := 0 to 10
      invariant GuessedSoFar(digest, TenTries(remote), n, remote)
      invariant forall i :: 0 <= i < n ==> Guesses(digest, TenTries(remote), i, remote)
    {
      TenGuessesStep(digest, TenTries(remote), n, remote);
    }
  }

  predicate GuessedSoFar(digest: string -> string, run: seq<Event>, n: nat, remote: string)
    requires n <= |run|
  {
    && After(digest, run, n).values == map[]
    && FailuresOf(After(digest, run, n), remote) == if n <= 5 then seq(n, _ => 0) else seq(n - 5, _ => WINDOW)
  }

  /** With no code stored, an attempt is a wrong guess exactly when it is not over the limit. */
  lemma UnknownCodeIsGuessed(digest: string -> string, run: seq<Event>, n: nat, remote: string)
    requires n < |run| && run[n].Try? && run[n].remote == remote && After(digest, run, n).values == map[]
    ensures Guesses(digest, run, n, remote) <==> |Recent(FailuresOf(After(digest, run, n), remote), run[n].now)| < MAX_FAILURES
    ensures !Succeeds(digest, run, n)
  {
    hide After, Recent, FailuresOf;
  }

  lemma TenGuessesStep(digest: string -> string, run: seq<Event>, n: nat, remote: string)
    requires n < |run| == 10 && run[n] == Try("x", remote, if n < 5 then 0 else WINDOW)
    requires GuessedSoFar(digest, run, n, remote)
    ensures GuessedSoFar(digest, run, n + 1, remote) && Guesses(digest, run, n, remote)
  {
    hide After, Recent, Guesses, Succeeds, FailuresOf;
    AttemptOnCodes(digest, run, n);
    EventOnFailures(digest, run, n, remote);
    UnknownCodeIsGuessed(digest, run, n, remote);
    var known, now := FailuresOf(After(digest, run, n), remote), run[n].now;
    if n == 5 { NothingRecent(known, now); } else { AllRecent(known, now); }
  }

  lemma {:induction false} NothingRecent(failures: seq<int>, now: int)
    requires forall i :: 0 <= i < |failures| ==> now - failures[i] >= WINDOW
    ensures Recent(failures, now) == []
  {
    if failures != [] { NothingRecent(failures[..|failures| - 1], now); }
  }

  lemma {:induction false} AllRecent(failures: seq<int>, now: int)
    requires forall i :: 0 <= i < |failures| ==> now - failures[i] < WINDOW
    ensures Recent(failures, now) == failures
  {
    if failures != [] {
      AllRecent(failures[..|failures| - 1], now);
      assert failures == failures[..|failures| - 1] + [failures[|failures| - 1]];
    }
  }
}
