/**
 What the managed Samba include says: one share per enabled Time Machine target,
 sorted by share name. The file is modelled as its list of shares.
 */
module SambaConfig {
  import opened Common

  datatype Backend = Zfs | Btrfs | Directory

  datatype Status = Waiting | Paused | Critical | Removed

  datatype Target = Target(
    id: string, shareName: string, owner: string, path: string, enabled: bool, status: Status,
    backend: Backend, advertisedGib: nat, hardLimit: int)

  datatype Share = Share(name: string, targetId: string, path: string, owner: string, sizeGib: nat)

  predicate NameLeq(a: string, b: string) {
    a == [] || (b != [] && (a[0] < b[0] || (a[0] == b[0] && NameLeq(a[1..], b[1..]))))
  }

  /** The order of names is the dictionary order: a beginning comes first, and else the first letter
      that differs decides. */
  lemma {:induction false} NameLeqIsDictionaryOrder(a: string, b: string)
    ensures NameLeq(a, b) <==> a <= b || exists k :: DecidedAt(a, b, k)
  {
    if a == [] || b == [] {
    } else if a[0] != b[0] {
      if a[0] < b[0] { assert DecidedAt(a, b, 0); }
    } else {
      NameLeqIsDictionaryOrder(a[1..], b[1..]);
      assert a <= b <==> a[1..] <= b[1..] by {
        assert a == [a[0]] + a[1..] && b == [b[0]] + b[1..];
      }
      forall k | DecidedAt(a[1..], b[1..], k)
        ensures DecidedAt(a, b, k + 1)
      {
        assert a[..k + 1] == [a[0]] + a[1..][..k] && b[..k + 1] == [b[0]] + b[1..][..k];
      }
      forall k | DecidedAt(a, b, k)
        ensures DecidedAt(a[1..], b[1..], k - 1)
      {
        assert a[1..][..k - 1] == a[..k][1..] && b[1..][..k - 1] == b[..k][1..];
      }
    }
  }

  ghost predicate DecidedAt(a: string, b: string, k: int) {
    0 <= k < |a| && k < |b| && a[..k] == b[..k] && a[k] < b[k]
  }

  lemma {:induction false} NameLeqTransitive(a: string, b: string, c: string)
    requires NameLeq(a, b) && NameLeq(b, c)
    ensures NameLeq(a, c)
  {
    if a != [] && a[0] == b[0] && b[0] == c[0] {
      NameLeqTransitive(a[1..], b[1..], c[1..]);
    }
  }

  lemma {:induction false} NameLeqTotal(a: string, b: string)
    ensures NameLeq(a, b) || NameLeq(b, a)
  {
    if a != [] && b != [] && a[0] == b[0] {
      NameLeqTotal(a[1..], b[1..]);
    }
  }

  /** A stable insertion: after every target whose name is not greater. */
  function InsertByName(t: Target, sorted: seq<Target>): seq<Target> {
    if sorted == [] || NameLeq(sorted[|sorted| - 1].shareName, t.shareName) then sorted + [t]
    else InsertByName(t, sorted[..|sorted| - 1]) + [sorted[|sorted| - 1]]
  }

  function SortByName(ts: seq<Target>): seq<Target> {
    if ts == [] then [] else InsertByName(ts[|ts| - 1], SortByName(ts[..|ts| - 1]))
  }

  function ShareOf(t: Target): Share {
    Share(t.shareName, t.id, t.path, t.owner, t.advertisedGib)
  }

  function EnabledShares(ts: seq<Target>): seq<Share> {
    if ts == [] then []
    else if ts[|ts| - 1].enabled then EnabledShares(ts[..|ts| - 1]) + [ShareOf(ts[|ts| - 1])]
    else EnabledShares(ts[..|ts| - 1])
  }

  /** The managed include for these targets. */
  function Render(ts: seq<Target>): seq<Share> {
    EnabledShares(SortByName(ts))
  }

  /** The Bonjour advertisement for these targets; the file is removed when none is enabled. */
  function Advertise(ts: seq<Target>): Option<seq<string>> {
    if Render(ts) == [] then None else Some(seq(|Render(ts)|, i requires 0 <= i < |Render(ts)| => Render(ts)[i].name))
  }

  ghost predicate SortedByName(ts: seq<Target>) {
    forall i, j :: 0 <= i < j < |ts| ==> NameLeq(ts[i].shareName, ts[j].shareName)
  }

  lemma {:induction false} InsertKeepsSorted(t: Target, sorted: seq<Target>)
    requires SortedByName(sorted)
    ensures SortedByName(InsertByName(t, sorted))
    ensures multiset(InsertByName(t, sorted)) == multiset(sorted) + multiset{t}
  {
    hide NameLeq;
    var n := |sorted| - 1;
    if sorted == [] {
    } else if NameLeq(sorted[n].shareName, t.shareName) {
      GreatestGoesLast(sorted, t);
    } else {
      InsertKeepsSorted(t, sorted[..n]);
      assert sorted == sorted[..n] + [sorted[n]];
      NameLeqTotal(sorted[n].shareName, t.shareName);
      LastNameIsGreatest(sorted);
      AllBelow(InsertByName(t, sorted[..n]), sorted[..n], t, sorted[n]);
      LastGoesLast(InsertByName(t, sorted[..n]), sorted[n]);
    }
  }

  lemma LastNameIsGreatest(sorted: seq<Target>)
    requires SortedByName(sorted) && sorted != []
    ensures forall i :: 0 <= i < |sorted| - 1 ==> NameLeq(sorted[i].shareName, sorted[|sorted| - 1].shareName)
  {
    hide NameLeq;
  }

  lemma GreatestGoesLast(sorted: seq<Target>, t: Target)
    requires SortedByName(sorted) && sorted != [] && NameLeq(sorted[|sorted| - 1].shareName, t.shareName)
    ensures SortedByName(sorted + [t])
  {
    hide NameLeq;
    LastNameIsGreatest(sorted);
    forall i | 0 <= i < |sorted| - 1
      ensures NameLeq(sorted[i].shareName, t.shareName)
    {
      NameLeqTransitive(sorted[i].shareName, sorted[|sorted| - 1].shareName, t.shareName);
    }
  }

  lemma AllBelow(shorter: seq<Target>, before: seq<Target>, t: Target, last: Target)
    requires multiset(shorter) == multiset(before) + multiset{t} && NameLeq(t.shareName, last.shareName)
    requires forall i :: 0 <= i < |before| ==> NameLeq(before[i].shareName, last.shareName)
    ensures forall i :: 0 <= i < |shorter| ==> NameLeq(shorter[i].shareName, last.shareName)
  {
    hide NameLeq;
    forall i | 0 <= i < |shorter|
      ensures NameLeq(shorter[i].shareName, last.shareName)
    {
      assert shorter[i] in multiset(shorter);
      assert shorter[i] in before || shorter[i] == t;
    }
  }

  lemma LastGoesLast(sorted: seq<Target>, last: Target)
    requires SortedByName(sorted) && forall i :: 0 <= i < |sorted| ==> NameLeq(sorted[i].shareName, last.shareName)
    ensures SortedByName(sorted + [last])
  {
    hide NameLeq;
  }

  lemma {:induction false} SortByNameSorts(ts: seq<Target>)
    ensures SortedByName(SortByName(ts)) && multiset(SortByName(ts)) == multiset(ts)
  {
    hide *;
    if ts == [] {
      NothingSorted();
    } else {
      var n := |ts| - 1;
      SortByNameSorts(ts[..n]);
      InsertKeepsSorted(ts[n], SortByName(ts[..n]));
      SortSnoc(ts[..n], ts[n]);
      assert ts == ts[..n] + [ts[n]];
    }
  }

  lemma NothingSorted()
    ensures SortByName([]) == [] && SortedByName([])
  {
  }

  lemma SortSnoc(ts: seq<Target>, t: Target)
    ensures SortByName(ts + [t]) == InsertByName(t, SortByName(ts))
  {
    hide InsertByName;
    assert (ts + [t])[..|ts|] == ts;
  }

  function Enabled(ts: seq<Target>): seq<Target> {
    if ts == [] then []
    else if ts[|ts| - 1].enabled then Enabled(ts[..|ts| - 1]) + [ts[|ts| - 1]]
    else Enabled(ts[..|ts| - 1])
  }

  lemma {:induction false} SharesOfEnabled(ts: seq<Target>)
    ensures EnabledShares(ts) == EnabledShares(Enabled(ts))
  {
    if ts != [] {
      SharesOfEnabled(ts[..|ts| - 1]);
      var rest := Enabled(ts[..|ts| - 1]);
      assert (rest + [ts[|ts| - 1]])[..|rest|] == rest;
    }
  }

  /** Dropping the disabled targets before or after an insertion comes to the same. */
  lemma {:induction false} InsertThenEnabled(t: Target, sorted: seq<Target>)
    requires SortedByName(sorted)
    ensures Enabled(InsertByName(t, sorted)) ==
            if t.enabled then InsertByName(t, Enabled(sorted)) else Enabled(sorted)
  {
    var n := |sorted| - 1;
    if sorted == [] {
      assert (sorted + [t])[..0] == [];
    } else if NameLeq(sorted[n].shareName, t.shareName) {
      assert (sorted + [t])[..|sorted|] == sorted;
      EnabledAreBelow(sorted, t);
    } else {
      InsertThenEnabled(t, sorted[..n]);
      var shorter, rest := InsertByName(t, sorted[..n]), Enabled(sorted[..n]);
      assert (shorter + [sorted[n]])[..|shorter|] == shorter;
      assert (rest + [sorted[n]])[..|rest|] == rest;
    }
  }

  lemma EnabledAreBelow(sorted: seq<Target>, t: Target)
    requires SortedByName(sorted) && sorted != [] && NameLeq(sorted[|sorted| - 1].shareName, t.shareName)
    ensures InsertByName(t, Enabled(sorted)) == Enabled(sorted) + [t]
  {
    var kept := Enabled(sorted);
    if kept != [] {
      var last := kept[|kept| - 1];
      EnabledAreMembers(sorted);
      assert last in kept;
      var i :| 0 <= i < |sorted| && sorted[i] == last;
      if i < |sorted| - 1 {
        NameLeqTransitive(last.shareName, sorted[|sorted| - 1].shareName, t.shareName);
      }
    }
  }

  lemma {:induction false} EnabledAreMembers(ts: seq<Target>)
    ensures forall t :: t in Enabled(ts) <==> t in ts && t.enabled
  {
    if ts != [] {
      EnabledAreMembers(ts[..|ts| - 1]);
      assert ts == ts[..|ts| - 1] + [ts[|ts| - 1]];
    }
  }

  lemma {:induction false} SortEnabledCommute(ts: seq<Target>)
    ensures Enabled(SortByName(ts)) == SortByName(Enabled(ts))
  {
    if ts != [] {
      var n := |ts| - 1;
      SortEnabledCommute(ts[..n]);
      SortByNameSorts(ts[..n]);
      InsertThenEnabled(ts[n], SortByName(ts[..n]));
      SortSnoc(Enabled(ts[..n]), ts[n]);
    }
  }

  /** A disabled target is never rendered: the include is that of the enabled ones. */
  lemma RenderIgnoresDisabled(ts: seq<Target>)
    ensures Render(ts) == Render(Enabled(ts))
  {
    SharesOfEnabled(SortByName(ts));
    SharesOfEnabled(SortByName(Enabled(ts)));
    SortEnabledCommute(ts);
    SortEnabledCommute(Enabled(ts));
    EnabledTwice(ts);
  }

  lemma {:induction false} EnabledTwice(ts: seq<Target>)
    ensures Enabled(Enabled(ts)) == Enabled(ts)
  {
    if ts != [] {
      EnabledTwice(ts[..|ts| - 1]);
      var rest := Enabled(ts[..|ts| - 1]);
      assert (rest + [ts[|ts| - 1]])[..|rest|] == rest;
    }
  }

  function Without(ts: seq<Target>, i: nat): seq<Target>
    requires i < |ts|
  {
    ts[..i] + ts[i + 1..]
  }

  lemma {:induction false} EnabledOfConcat(a: seq<Target>, b: seq<Target>)
    ensures Enabled(a + b) == Enabled(a) + Enabled(b)
  {
    if b == [] {
      assert a + b == a;
    } else {
      var n := |b| - 1;
      assert (a + b)[..|a + b| - 1] == a + b[..n];
      EnabledOfConcat(a, b[..n]);
    }
  }

  /** Forgetting a removed target leaves the rendered files as they are. */
  lemma ForgettingDisabledKeepsFiles(ts: seq<Target>, i: nat)
    requires i < |ts| && !ts[i].enabled
    ensures Render(Without(ts, i)) == Render(ts) && Advertise(Without(ts, i)) == Advertise(ts)
  {
    EnabledWithout(ts, i);
    RenderIgnoresDisabled(ts);
    RenderIgnoresDisabled(Without(ts, i));
  }

  lemma EnabledWithout(ts: seq<Target>, i: nat)
    requires i < |ts| && !ts[i].enabled
    ensures Enabled(Without(ts, i)) == Enabled(ts)
  {
    var before, after := ts[..i + 1], ts[i + 1..];
    assert ts == before + after && before[..i] == ts[..i];
    EnabledOfConcat(before, after);
    EnabledOfConcat(ts[..i], after);
  }

  /** A share that offers a target: its name, its directory, its account and its advertised size. */
  ghost predicate Describes(s: Share, t: Target) {
    s.name == t.shareName && s.targetId == t.id && s.path == t.path && s.owner == t.owner && s.sizeGib == t.advertisedGib
  }

  lemma {:induction false} SharesAreEnabledTargets(ts: seq<Target>)
    ensures forall s :: s in EnabledShares(ts) <==> exists t :: t in ts && t.enabled && Describes(s, t)
  {
    if ts != [] {
      SharesAreEnabledTargets(ts[..|ts| - 1]);
      assert ts == ts[..|ts| - 1] + [ts[|ts| - 1]];
    }
  }

  /** The include lists the enabled targets' shares and no others. */
  lemma RenderListsEnabled(ts: seq<Target>)
    ensures forall s :: s in Render(ts) <==> exists t :: t in ts && t.enabled && Describes(s, t)
  {
    SharesAreEnabledTargets(SortByName(ts));
    SortByNameSorts(ts);
    forall t
      ensures t in SortByName(ts) <==> t in ts
    {
      assert t in multiset(SortByName(ts)) <==> t in multiset(ts);
    }
  }

  lemma {:induction false} OneShareEach(ts: seq<Target>)
    ensures |EnabledShares(ts)| == |Enabled(ts)|
    ensures forall i :: 0 <= i < |Enabled(ts)| ==> Describes(EnabledShares(ts)[i], Enabled(ts)[i])
  {
    if ts != [] { OneShareEach(ts[..|ts| - 1]); }
  }

  lemma {:induction false} EnabledCounts(ts: seq<Target>, t: Target)
    ensures multiset(Enabled(ts))[t] == if t.enabled then multiset(ts)[t] else 0
  {
    if ts != [] {
      EnabledCounts(ts[..|ts| - 1], t);
      assert ts == ts[..|ts| - 1] + [ts[|ts| - 1]];
    }
  }

  /** A list of the enabled targets of a registry, each as often as there, by name. */
  ghost predicate ListsEnabled(listed: seq<Target>, ts: seq<Target>) {
    && (forall t :: multiset(listed)[t] == if t.enabled then multiset(ts)[t] else 0)
    && SortedByName(listed)
  }

  lemma EnabledByName(ts: seq<Target>)
    ensures ListsEnabled(SortByName(Enabled(ts)), ts)
  {
    SortByNameSorts(Enabled(ts));
    forall t
      ensures multiset(SortByName(Enabled(ts)))[t] == if t.enabled then multiset(ts)[t] else 0
    {
      EnabledCounts(ts, t);
    }
  }

  /** The include has one share for each enabled target, no more and no fewer, in name order. */
  lemma RenderedInNameOrder(ts: seq<Target>)
    ensures var rendered, listed := Render(ts), SortByName(Enabled(ts));
            && ListsEnabled(listed, ts) && |rendered| == |listed|
            && (forall i :: 0 <= i < |rendered| ==> Describes(rendered[i], listed[i]))
            && (forall i, j :: 0 <= i < j < |rendered| ==> NameLeq(rendered[i].name, rendered[j].name))
  {
    SortEnabledCommute(ts);
    OneShareEach(SortByName(ts));
    EnabledByName(ts);
  }

  /** The advertisement lists the enabled targets' names in order, and is absent exactly when no
      target is enabled. */
  lemma AdvertisedInNameOrder(ts: seq<Target>)
    ensures Advertise(ts).None? <==> forall t :: t in ts ==> !t.enabled
    ensures var listed := SortByName(Enabled(ts));
            && ListsEnabled(listed, ts)
            && (Advertise(ts).Some? ==>
                  && |Advertise(ts).value| == |listed|
                  && forall i :: 0 <= i < |listed| ==> Advertise(ts).value[i] == listed[i].shareName)
  {
    RenderedInNameOrder(ts);
    SomeListed(ts);
    hide Render, Enabled, SortByName, ListsEnabled;
  }

  lemma SomeListed(ts: seq<Target>)
    ensures SortByName(Enabled(ts)) == [] <==> forall t :: t in ts ==> !t.enabled
  {
    var listed := SortByName(Enabled(ts));
    SortByNameSorts(Enabled(ts));
    EnabledAreMembers(ts);
    hide SortByName, Enabled, SortedByName;
    forall t
      ensures t in listed <==> t in ts && t.enabled
    {
      assert t in multiset(listed) <==> t in multiset(Enabled(ts));
    }
    assert listed != [] ==> listed[0] in listed;
  }

  function Named(ts: seq<Target>, name: string): seq<Target> {
    if ts == [] then []
    else if ts[|ts| - 1].shareName == name then Named(ts[..|ts| - 1], name) + [ts[|ts| - 1]]
    else Named(ts[..|ts| - 1], name)
  }

  lemma {:induction false} NameLeqReflexive(a: string)
    ensures NameLeq(a, a)
  {
    if a != [] { NameLeqReflexive(a[1..]); }
  }

  lemma {:induction false} InsertGoesBehindItsName(t: Target, sorted: seq<Target>, name: string)
    ensures Named(InsertByName(t, sorted), name) == Named(sorted, name) + if t.shareName == name then [t] else []
  {
    hide NameLeq;
    NameLeqReflexive(t.shareName);
    var n := |sorted| - 1;
    if sorted == [] || NameLeq(sorted[n].shareName, t.shareName) {
      assert (sorted + [t])[..|sorted|] == sorted;
    } else {
      InsertGoesBehindItsName(t, sorted[..n], name);
      var shorter := InsertByName(t, sorted[..n]);
      assert (shorter + [sorted[n]])[..|shorter|] == shorter;
    }
  }

  /** Targets of one name stay in the registry's order. */
  lemma {:induction false} SortKeepsOrderOfName(ts: seq<Target>, name: string)
    ensures Named(SortByName(ts), name) == Named(ts, name)
  {
    if ts != [] {
      SortKeepsOrderOfName(ts[..|ts| - 1], name);
      InsertGoesBehindItsName(ts[|ts| - 1], SortByName(ts[..|ts| - 1]), name);
    }
  }
}
