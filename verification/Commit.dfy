/** One commit at the replica receiver, run to its end: check, mark, rename, prune. */
module Commit {
  import opened Common
  import opened Receiver

  type Dirs = map<Name, Dir>

  predicate Complete(d: Dirs, n: nat)
    ensures Complete(d, n) <==> Final(n) in d.Keys && ".runvard-complete" in d[Final(n)].Keys
  {
    Final(n) in d && MARKER in d[Final(n)]
  }

  /** Complete, with two greater complete ones beside it. */
  ghost predicate Superseded(d: Dirs, n: nat) {
    Complete(d, n) && exists u, v :: n < u < v && Complete(d, u) && Complete(d, v)
  }

  function Renamed(d: Dirs, n: nat, hex: string): Dirs
    requires Staging(n, hex) in d
  {
    (d - {Staging(n, hex)})[Final(n) := d[Staging(n, hex)][MARKER := "complete\n"]]
  }

  ghost predicate PrunedAt(d: Dirs, after: Dirs, name: Name) {
    && (name in after <==> name in d && (name.Staging? || !Superseded(d, name.n)))
    && (name in after ==> name in d && after[name] == d[name])
  }

  /** Exactly the superseded versions are gone; the rest is as it was. */
  ghost predicate PrunedFrom(d: Dirs, after: Dirs) {
    forall name :: PrunedAt(d, after, name)
  }

  ghost predicate Committed(d: Dirs, n: nat, hex: string, after: Dirs) {
    && Staging(n, hex) in d && Final(n) !in d
    && PrunedFrom(Renamed(d, n, hex), after)
  }

  ghost predicate Ascending(s: seq<nat>) {
    forall i, j :: 0 <= i < j < |s| ==> s[i] < s[j]
  }

  lemma InsertionKeepsAscending(s: seq<nat>, n: nat, k: nat)
    requires Ascending(s) && k <= |s| && n !in s
    requires k < |s| ==> n <= s[k]
    requires forall i :: 0 <= i < k ==> s[i] < n
    ensures Ascending(s[..k] + [n] + s[k..])
  {
    var after := s[..k] + [n] + s[k..];
    forall i, j | 0 <= i < j < |after|
      ensures after[i] < after[j]
    {
      assert k < |s| ==> s[k] != n;
    }
  }

  lemma InsertionAddsOne(s: seq<nat>, n: nat, k: nat)
    requires k <= |s|
    ensures forall x :: x in s[..k] + [n] + s[k..] <==> x == n || x in s
  {
    assert s == s[..k] + s[k..];
    assert forall x :: x in s[..k] + s[k..] <==> x in s[..k] || x in s[k..];
  }

  /** The set's numbers in ascending order. */
  method SortNumbers(numbers: set<nat>) returns (sorted: seq<nat>)
    ensures Ascending(sorted)
    ensures forall n :: n in sorted <==> n in numbers
  {
    sorted := [];
    assert Ascending(sorted);
    hide Ascending;
    var rest := numbers;
    while rest != {}
      invariant rest <= numbers
      invariant Ascending(sorted)
      invariant forall n :: n in numbers <==> n in sorted || n in rest
      invariant forall n :: n in rest ==> n !in sorted
      decreases rest
    {
      var n :| n in rest;
      var k := 0;
      while k < |sorted| && sorted[k] < n
        invariant k <= |sorted|
        invariant forall i :: 0 <= i < k ==> sorted[i] < n
      {
        k := k + 1;
      }
      InsertionKeepsAscending(sorted, n, k);
      InsertionAddsOne(sorted, n, k);
      sorted := sorted[..k] + [n] + sorted[k..];
      rest := rest - {n};
    }
  }

  /** All but the last two of the ascending list are the superseded ones. */
  lemma AllButTwo(d: Dirs, committed: seq<nat>, i: nat)
    requires Ascending(committed) && i < |committed|
    requires forall n :: n in committed <==> Complete(d, n)
    ensures Superseded(d, committed[i]) <==> i + 2 < |committed|
  {
    if i + 2 < |committed| {
      var u, v := committed[i + 1], committed[i + 2];
      assert committed[i] < u < v && u in committed && v in committed;
    }
    if Superseded(d, committed[i]) {
      var u, v :| committed[i] < u < v && Complete(d, u) && Complete(d, v);
      assert u in committed && v in committed;
      var a, b :| 0 <= a < |committed| && 0 <= b < |committed| && committed[a] == u && committed[b] == v;
      assert i < a < b;
    }
  }

  function CompleteNumbers(d: Dirs): (numbers: set<nat>)
    ensures forall m :: m in numbers <==> Complete(d, m)
  {
    var finals := set name | name in d && name.Final? && Complete(d, name.n);
    assert forall m :: Complete(d, m) ==> Final(m) in finals;
    set name | name in finals :: name.n
  }

  lemma OlderAreSuperseded(d: Dirs, committed: seq<nat>, kept: nat)
    requires Ascending(committed) && kept == if |committed| < 2 then 0 else |committed| - 2
    requires forall n :: n in committed <==> Complete(d, n)
    ensures forall n :: n in committed[..kept] <==> Superseded(d, n)
  {
    forall n ensures n in committed[..kept] <==> Superseded(d, n) {
      if n in committed {
        var i :| 0 <= i < |committed| && committed[i] == n;
        AllButTwo(d, committed, i);
        OnlyBefore(committed, i, kept);
      }
    }
  }

  lemma OnlyBefore(s: seq<nat>, i: nat, k: nat)
    requires Ascending(s) && i < |s| && k <= |s|
    ensures s[i] in s[..k] <==> i < k
  {
  }

  lemma DroppingSuperseded(d: Dirs, after: Dirs, dropped: seq<nat>)
    requires forall n :: n in dropped <==> Superseded(d, n)
    requires forall name :: name in after ==> name in d && after[name] == d[name]
    requires forall name :: name in d ==> (name in after <==> name.Staging? || name.n !in dropped)
    ensures PrunedFrom(d, after)
  {
    hide Superseded;
  }

  lemma PublishedAndPruned(d: Dirs, n: nat, hex: string, after: Dirs)
    requires Staging(n, hex) in d && Final(n) !in d && PrunedFrom(Renamed(d, n, hex), after)
    ensures Committed(d, n, hex, after)
  {
    hide PrunedFrom, Renamed;
  }

  class VersionStore {
    var dirs: Dirs

    constructor ()
      ensures dirs == map[]
    {
      dirs := map[];
    }

    /** Publish a received staging directory under its number and prune the older versions. */
    method CommitVersion(n: nat, hex: string) returns (r: Result<nat>)
      modifies this
      ensures r.Ok? <==> Staging(n, hex) in old(dirs) && Final(n) !in old(dirs)
      ensures r.Ok? ==> r.value == n && Committed(old(dirs), n, hex, dirs)
      ensures !r.Ok? ==> dirs == old(dirs)
    {
      var staging, final := Staging(n, hex), Final(n);
      if staging !in dirs || final in dirs { return Error("Invalid replica commit paths"); }
      dirs := dirs[staging := dirs[staging][MARKER := "complete\n"]];
      dirs := (dirs - {staging})[final := dirs[staging]];
      assert dirs == Renamed(old(dirs), n, hex);
      var renamed := dirs;
      var committed := SortNumbers(CompleteNumbers(renamed));
      hide *;
      var kept := if |committed| < 2 then 0 else |committed| - 2;
      for i := 0 to kept
        invariant forall name :: name in dirs ==> name in renamed && dirs[name] == renamed[name]
        invariant forall name :: name in renamed ==> (name in dirs <==> name.Staging? || name.n !in committed[..i])
      {
        dirs := dirs - {Final(committed[i])};
        assert committed[..i + 1] == committed[..i] + [committed[i]];
      }
      OlderAreSuperseded(renamed, committed, kept);
      DroppingSuperseded(renamed, dirs, committed[..kept]);
      PublishedAndPruned(old(dirs), n, hex, dirs);
      r := Ok(n);
    }
  }

  /** A commit leaves at most two complete versions. */
  lemma AtMostTwoComplete(d: Dirs, n: nat, hex: string, after: Dirs, a: nat, b: nat, c: nat)
    requires Committed(d, n, hex, after) && a < b < c
    ensures !(Complete(after, a) && Complete(after, b) && Complete(after, c))
  {
    if Complete(after, a) && Complete(after, b) && Complete(after, c) {
      var r := Renamed(d, n, hex);
      assert PrunedAt(r, after, Final(a)) && PrunedAt(r, after, Final(b)) && PrunedAt(r, after, Final(c));
      assert Complete(r, a) && Complete(r, b) && Complete(r, c);
      assert Superseded(r, a);
    }
  }

  /** The version just committed survives its own pruning exactly when at most one greater
      complete version was there already; every other version is kept or superseded. */
  lemma CommittedSurvives(d: Dirs, n: nat, hex: string, after: Dirs)
    requires Committed(d, n, hex, after)
    ensures Complete(after, n) <==> !(exists u, v :: n < u < v && Complete(d, u) && Complete(d, v))
    ensures Complete(after, n) ==> after[Final(n)] == d[Staging(n, hex)][MARKER := "complete\n"]
    ensures forall m: nat :: Complete(d, m) && !Complete(after, m) ==>
              exists u, v :: m < u < v && (u == n || Complete(d, u)) && (v == n || Complete(d, v))
  {
    var r := Renamed(d, n, hex);
    assert forall m :: m != n ==> (Complete(r, m) <==> Complete(d, m));
    assert Complete(r, n);
    assert PrunedAt(r, after, Final(n));
    forall m: nat | Complete(d, m) && !Complete(after, m)
      ensures exists u, v :: m < u < v && (u == n || Complete(d, u)) && (v == n || Complete(d, v))
    {
      assert m != n && PrunedAt(r, after, Final(m));
      var u, v :| m < u < v && Complete(r, u) && Complete(r, v);
      assert (u == n || Complete(d, u)) && (v == n || Complete(d, v));
    }
  }

  /** With numbers that only grow, what is committed is there afterwards. */
  lemma GrowingNumbersSurvive(d: Dirs, n: nat, hex: string, after: Dirs)
    requires Committed(d, n, hex, after)
    requires forall m: nat :: Complete(d, m) ==> m < n
    ensures Complete(after, n)
  {
    CommittedSurvives(d, n, hex, after);
  }

  /** Incomplete numbers and staging directories are left as they are. */
  lemma OthersUntouched(d: Dirs, n: nat, hex: string, after: Dirs, name: Name)
    requires Committed(d, n, hex, after)
    requires name in d && name != Staging(n, hex) && (name.Staging? || !Complete(d, name.n))
    ensures name in after && after[name] == d[name]
  {
    assert PrunedAt(Renamed(d, n, hex), after, name);
  }

  /** Whatever is there afterwards is the version published, or was there before and is unchanged. */
  lemma NothingElseAppears(d: Dirs, n: nat, hex: string, after: Dirs, name: Name)
    requires Committed(d, n, hex, after) && name in after
    ensures name != Staging(n, hex)
    ensures name != Final(n) ==> name in d && after[name] == d[name]
  {
    assert PrunedAt(Renamed(d, n, hex), after, name);
  }

  /******* The names on the command line *******/

  predicate AllDigits(s: string) { forall c :: c in s ==> '0' <= c <= '9' }

  predicate StagingName(name: string, digits: string, hex: string) {
    && AllDigits(digits) && 1 <= |digits| <= 20
    && name == ".incomplete-" + digits + "-" + hex
  }

  predicate NamesMatch(staging: string, final: string) {
    ".incomplete-" + final + "-" <= staging && final != "" && AllDigits(final)
  }

  /** The commit rule accepts, for a staging name rsync may write to, its own number only. */
  lemma CommitNamesItsOwnVersion(staging: string, digits: string, hex: string, final: string)
    requires StagingName(staging, digits, hex)
    ensures NamesMatch(staging, final) <==> final == digits
  {
    var head := ".incomplete-";
    Framed(head, digits, hex);
    assert staging == head + digits + ['-'] + hex;
    hide NamesMatch;
    if NamesMatch(staging, final) {
      var rest := AfterPrefix(staging, final);
      Framed(head, final, rest);
      NoDash(digits);
      NoDash(final);
      hide AllDigits, StagingName;
      SameStretch(staging, |head|, digits, final);
    }
    if final == digits {
      MatchesItself(staging, digits, hex);
    }
  }

  lemma AfterPrefix(staging: string, final: string) returns (rest: string)
    requires NamesMatch(staging, final)
    ensures staging == ".incomplete-" + final + ['-'] + rest && final != "" && AllDigits(final)
  {
    var prefix := ".incomplete-" + final + "-";
    rest := staging[|prefix|..];
    assert staging == prefix + rest;
  }

  lemma MatchesItself(staging: string, digits: string, hex: string)
    requires StagingName(staging, digits, hex)
    ensures NamesMatch(staging, digits)
  {
    assert staging == (".incomplete-" + digits + "-") + hex;
  }

  /** Where `x` and the dash after it stand. */
  lemma Framed(head: string, x: string, rest: string)
    ensures var s := head + x + ['-'] + rest;
            && |s| > |head| + |x| && s[|head| + |x|] == '-'
            && forall k :: |head| <= k < |head| + |x| ==> s[k] == x[k - |head|]
  {
  }

  lemma NoDash(s: string)
    requires AllDigits(s)
    ensures forall k :: 0 <= k < |s| ==> s[k] != '-'
  {
    assert forall k :: 0 <= k < |s| ==> s[k] in s;
  }

  /** Two dash-free stretches from the same place up to a dash are the same. */
  lemma SameStretch(s: string, from: nat, x: string, y: string)
    requires |s| > from + |x| && s[from + |x|] == '-' && |s| > from + |y| && s[from + |y|] == '-'
    requires forall k :: from <= k < from + |x| ==> s[k] == x[k - from]
    requires forall k :: from <= k < from + |y| ==> s[k] == y[k - from]
    requires (forall k :: 0 <= k < |x| ==> x[k] != '-') && (forall k :: 0 <= k < |y| ==> y[k] != '-')
    ensures x == y
  {
    assert |x| == |y|;
    assert forall k :: 0 <= k < |x| ==> x[k] == s[from + k] == y[k];
  }
}
