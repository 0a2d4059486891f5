/**
 Choosing host ports for a stack. What other stacks have reserved, and whether a port can be
 bound, are parameters that stay as they are while one stack is set up.
 */
module Ports {
  import opened Common
  import opened PortSpecs

  const PORT_SEARCH_LIMIT := 200

  predicate Available(bindable: int -> bool, port: int) {
    0 < port <= 65535 && bindable(port)
  }

  predicate Usable(bindable: int -> bool, reserved: set<int>, port: int)
    ensures Usable(bindable, reserved, port) <==> port !in reserved && 1 <= port < 65536 && bindable(port)
  {
    port !in reserved && Available(bindable, port)
  }

  /** The least usable port among `steps` ports from `port` on, else `preferred`. */
  function Search(bindable: int -> bool, reserved: set<int>, port: int, steps: nat, preferred: int): int
    decreases steps
  {
    if steps == 0 then preferred
    else if Usable(bindable, reserved, port) then port
    else Search(bindable, reserved, port + 1, steps - 1, preferred)
  }

  function NextPort(bindable: int -> bool, reserved: set<int>, preferred: int): int {
    Search(bindable, reserved, preferred, PORT_SEARCH_LIMIT, preferred)
  }

  ghost predicate WindowHasRoom(bindable: int -> bool, reserved: set<int>, preferred: int) {
    exists q :: preferred <= q < preferred + 200 && Usable(bindable, reserved, q)
  }

  lemma {:induction false} SearchFindsLeast(bindable: int -> bool, reserved: set<int>, port: int, steps: nat, preferred: int)
    ensures var r := Search(bindable, reserved, port, steps, preferred);
            if exists q :: port <= q < port + steps && Usable(bindable, reserved, q)
            then port <= r < port + steps && Usable(bindable, reserved, r)
                 && forall q :: port <= q < r ==> !Usable(bindable, reserved, q)
            else r == preferred
    decreases steps
  {
    if steps > 0 && !Usable(bindable, reserved, port) {
      SearchFindsLeast(bindable, reserved, port + 1, steps - 1, preferred);
    }
  }

  /** The search returns the least usable port of its window; it returns a usable one exactly when
      there is one, and otherwise falls back to the preferred port. */
  lemma NextPortIsLeast(bindable: int -> bool, reserved: set<int>, preferred: int)
    ensures var r := NextPort(bindable, reserved, preferred);
            && (Usable(bindable, reserved, r) <==> WindowHasRoom(bindable, reserved, preferred))
            && preferred <= r < preferred + 200
            && (WindowHasRoom(bindable, reserved, preferred) ==>
                  forall q :: preferred <= q < r ==> !Usable(bindable, reserved, q))
            && (!WindowHasRoom(bindable, reserved, preferred) ==> r == preferred)
  {
    SearchFindsLeast(bindable, reserved, preferred, PORT_SEARCH_LIMIT, preferred);
  }

  lemma {:induction false} NothingAbove(bindable: int -> bool, reserved: set<int>, port: int, steps: nat, preferred: int)
    requires port > 65535
    ensures Search(bindable, reserved, port, steps, preferred) == preferred
    decreases steps
  {
    if steps > 0 { NothingAbove(bindable, reserved, port + 1, steps - 1, preferred); }
  }

  method NextAvailableHostPort(bindable: int -> bool, reserved: set<int>, preferred: int) returns (r: int)
    ensures r == NextPort(bindable, reserved, preferred)
  {
    var port := preferred;
    for i := 0 to PORT_SEARCH_LIMIT
      invariant port == preferred + i
      invariant NextPort(bindable, reserved, preferred) == Search(bindable, reserved, port, PORT_SEARCH_LIMIT - i, preferred)
    {
      if port !in reserved && Available(bindable, port) { return port; }
      port := port + 1;
      if port > 65535 {
        NothingAbove(bindable, reserved, port, PORT_SEARCH_LIMIT - i - 1, preferred);
        break;
      }
    }
    r := preferred;
  }

  /******* A stack's specs *******/

  datatype Allocation = Allocation(chosen: map<int, int>, reserved: set<int>)

  /** A spec without a published port, or with port 0, is left alone. */
  predicate Wanted(w: Option<int>)
    ensures Wanted(w) <==> w.Some? && (w.value > 0 || w.value < 0)
  {
    w.Some? && w.value != 0
  }

  /** One more spec: the first to publish a port decides its host port. */
  function Assigned(bindable: int -> bool, a: Allocation, w: Option<int>): Allocation {
    if !Wanted(w) || w.value in a.chosen then a
    else
      var port := NextPort(bindable, a.reserved, w.value);
      Allocation(a.chosen[w.value := port], a.reserved + {port})
  }

  /** The host port of each published one, after the first `n` specs. */
  function Assign(bindable: int -> bool, taken: set<int>, wants: seq<Option<int>>, n: nat): Allocation
    requires n <= |wants|
  {
    if n == 0 then Allocation(map[], taken) else Assigned(bindable, Assign(bindable, taken, wants, n - 1), wants[n - 1])
  }

  function Wants(toInt: string -> Option<int>, ports: seq<Mapping>): (wants: seq<Option<int>>)
    ensures |wants| == |ports| && forall i :: 0 <= i < |ports| ==> wants[i] == PublishedPort(toInt, ports[i])
  {
    seq(|ports|, i requires 0 <= i < |ports| => PublishedPort(toInt, ports[i]))
  }

  function Allocated(chosen: map<int, int>, w: Option<int>, m: Mapping): Mapping {
    if Wanted(w) && w.value in chosen then ReplacePublishedPort(m, chosen[w.value]) else m
  }

  method AllocatedPortSpecs(toInt: string -> Option<int>, bindable: int -> bool, taken: set<int>, ports: seq<Mapping>)
    returns (specs: seq<Mapping>)
    ensures |specs| == |ports|
    ensures var wants := Wants(toInt, ports);
            forall i :: 0 <= i < |ports| ==>
              specs[i] == Allocated(Assign(bindable, taken, wants, |ports|).chosen, wants[i], ports[i])
  {
    hide PublishedPort, ReplacePublishedPort, NextPort;
    var reserved, chosen := taken, map[];
    specs := [];
    ghost var wants := Wants(toInt, ports);
    for n := 0 to |ports|
      invariant |specs| == n
      invariant Allocation(chosen, reserved) == Assign(bindable, taken, wants, n)
      invariant forall i :: 0 <= i < n ==> specs[i] == Allocated(chosen, wants[i], ports[i])
      invariant forall i :: 0 <= i < n && Wanted(wants[i]) ==> wants[i].value in chosen
    {
      var spec := ports[n];
      var preferred := PublishedPort(toInt, spec);
      assert preferred == wants[n];
      if preferred.None? || preferred.value == 0 {
        specs := specs + [spec];
      } else {
        var hostPort;
        if preferred.value in chosen {
          hostPort := chosen[preferred.value];
        } else {
          hostPort := NextAvailableHostPort(bindable, reserved, preferred.value);
          chosen := chosen[preferred.value := hostPort];
          reserved := reserved + {hostPort};
        }
        specs := specs + [ReplacePublishedPort(spec, hostPort)];
      }
    }
  }

  /** The search for spec `n`, if it needs one, finds a port in its window. */
  ghost predicate FoundAt(bindable: int -> bool, taken: set<int>, wants: seq<Option<int>>, n: nat)
    requires n < |wants|
  {
    var a := Assign(bindable, taken, wants, n);
    Wanted(wants[n]) && wants[n].value !in a.chosen ==> WindowHasRoom(bindable, a.reserved, wants[n].value)
  }

  ghost predicate Injective(m: map<int, int>) {
    forall p, q :: p in m && q in m && m[p] == m[q] ==> p == q
  }

  /** What has been chosen is reserved, and belongs to a published port. */
  ghost predicate Reserved(a: Allocation, taken: set<int>) {
    && (forall p :: p in a.chosen ==> a.chosen[p] in a.reserved)
    && (forall x :: x in a.reserved ==> x in taken || exists p :: p in a.chosen && a.chosen[p] == x)
    && taken <= a.reserved
  }

  lemma {:induction false} ChosenAreReserved(bindable: int -> bool, taken: set<int>, wants: seq<Option<int>>, n: nat)
    requires n <= |wants|
    ensures Reserved(Assign(bindable, taken, wants, n), taken)
    ensures forall i :: 0 <= i < n && Wanted(wants[i]) ==> wants[i].value in Assign(bindable, taken, wants, n).chosen
    ensures forall p :: p in Assign(bindable, taken, wants, n).chosen ==> exists i :: 0 <= i < n && wants[i] == Some(p)
  {
    hide NextPort;
    if n > 0 {
      ChosenAreReserved(bindable, taken, wants, n - 1);
      var a, w := Assign(bindable, taken, wants, n - 1), wants[n - 1];
      if Wanted(w) && w.value !in a.chosen {
        var b := Assigned(bindable, a, w);
        forall x | x in b.reserved ensures x in taken || exists p :: p in b.chosen && b.chosen[p] == x {
          if x in a.reserved && x !in taken {
            var p :| p in a.chosen && a.chosen[p] == x;
            assert p in b.chosen && b.chosen[p] == x;
          } else if x !in taken {
            assert b.chosen[w.value] == x;
          }
        }
        assert forall i :: 0 <= i < n && Wanted(wants[i]) ==> wants[i].value in b.chosen;
      }
    }
  }

  ghost predicate NoClash(bindable: int -> bool, taken: set<int>, chosen: map<int, int>) {
    Injective(chosen) && forall p :: p in chosen ==> Usable(bindable, taken, chosen[p])
  }

  lemma OneMoreAssigned(bindable: int -> bool, taken: set<int>, a: Allocation, w: Option<int>)
    requires Reserved(a, taken)
    ensures NoClash(bindable, taken, Assigned(bindable, a, w).chosen) <==>
            (NoClash(bindable, taken, a.chosen)
             && (Wanted(w) && w.value !in a.chosen ==> WindowHasRoom(bindable, a.reserved, w.value)))
  {
    if Wanted(w) && w.value !in a.chosen {
      NextPortIsLeast(bindable, a.reserved, w.value);
      var port, b := NextPort(bindable, a.reserved, w.value), Assigned(bindable, a, w).chosen;
      hide NextPort, WindowHasRoom;
      assert b == a.chosen[w.value := port];
      OneMoreClash(bindable, a, taken, w.value, port);
    }
  }

  lemma OneMoreClash(bindable: int -> bool, a: Allocation, taken: set<int>, p: int, port: int)
    requires Reserved(a, taken) && p !in a.chosen
    ensures NoClash(bindable, taken, a.chosen[p := port]) <==>
            NoClash(bindable, taken, a.chosen) && Usable(bindable, a.reserved, port)
  {
    var b := a.chosen[p := port];
    assert b[p] == port;
    assert forall q :: q in a.chosen ==> b[q] == a.chosen[q] && a.chosen[q] in a.reserved;
    if NoClash(bindable, taken, b) {
      forall q, r | q in a.chosen && r in a.chosen && a.chosen[q] == a.chosen[r] ensures q == r {
        assert b[q] == b[r];
      }
      if port in a.reserved {
        assert false;
      }
    }
  }

  /** Different published ports get different, unreserved and available host ports exactly when
      every search finds one. */
  lemma {:induction false} PortsDoNotClash(bindable: int -> bool, taken: set<int>, wants: seq<Option<int>>, n: nat)
    requires n <= |wants|
    ensures (forall i :: 0 <= i < n ==> FoundAt(bindable, taken, wants, i)) <==>
            NoClash(bindable, taken, Assign(bindable, taken, wants, n).chosen)
  {
    if n > 0 {
      PortsDoNotClash(bindable, taken, wants, n - 1);
      ChosenAreReserved(bindable, taken, wants, n - 1);
      OneMoreAssigned(bindable, taken, Assign(bindable, taken, wants, n - 1), wants[n - 1]);
      assert FoundAt(bindable, taken, wants, n - 1) <==>
        (Wanted(wants[n - 1]) && wants[n - 1].value !in Assign(bindable, taken, wants, n - 1).chosen ==>
           WindowHasRoom(bindable, Assign(bindable, taken, wants, n - 1).reserved, wants[n - 1].value));
      hide FoundAt, NoClash, WindowHasRoom;
    }
  }

  /** Free for the next spec: not reserved elsewhere, not chosen before, and there to be bound. */
  ghost predicate StillFree(bindable: int -> bool, taken: set<int>, chosen: map<int, int>, q: int) {
    q !in taken && (forall p :: p in chosen ==> chosen[p] != q) && 1 <= q < 65536 && bindable(q)
  }

  /** Ports are chosen in turn: the first spec to publish `p` gets the least free one of the 200 from `p` on,
      or `p` if there is none; nothing chosen before changes. */
  lemma ChosenInTurn(bindable: int -> bool, taken: set<int>, wants: seq<Option<int>>, n: nat)
    requires n < |wants|
    ensures var before, after := Assign(bindable, taken, wants, n).chosen, Assign(bindable, taken, wants, n + 1).chosen;
            if wants[n].None? || wants[n].value == 0 || wants[n].value in before then after == before
            else
              var p := wants[n].value;
              && after.Keys == before.Keys + {p} && (forall q :: q in before ==> after[q] == before[q])
              && if exists q :: p <= q < p + 200 && StillFree(bindable, taken, before, q)
                 then p <= after[p] < p + 200 && StillFree(bindable, taken, before, after[p])
                      && forall q :: p <= q < after[p] ==> !StillFree(bindable, taken, before, q)
                 else after[p] == p
  {
    var a, w := Assign(bindable, taken, wants, n), wants[n];
    ChosenAreReserved(bindable, taken, wants, n);
    if Wanted(w) && w.value !in a.chosen {
      FreeIsUsable(bindable, taken, a);
      NextPortIsLeast(bindable, a.reserved, w.value);
      hide NextPort, Usable, StillFree;
    }
  }

  lemma FreeIsUsable(bindable: int -> bool, taken: set<int>, a: Allocation)
    requires Reserved(a, taken)
    ensures forall q :: StillFree(bindable, taken, a.chosen, q) <==> Usable(bindable, a.reserved, q)
  {
  }

  /** `port` is the least one from `p` on that was free when spec `n` was the first to publish `p`. */
  ghost predicate LeastAt(bindable: int -> bool, taken: set<int>, wants: seq<Option<int>>, n: nat, p: int, port: int)
    requires n < |wants|
  {
    var a := Assign(bindable, taken, wants, n);
    && wants[n] == Some(p) && p !in a.chosen && port >= p && Usable(bindable, a.reserved, port)
    && forall q :: p <= q < port ==> !Usable(bindable, a.reserved, q)
  }

  /** When every search succeeds, each host port is the least at or above its preference that was
      neither reserved, nor unavailable, nor given to an earlier spec. */
  lemma {:induction false} PortsAreLeast(bindable: int -> bool, taken: set<int>, wants: seq<Option<int>>, n: nat, p: int)
    requires n <= |wants| && forall i :: 0 <= i < n ==> FoundAt(bindable, taken, wants, i)
    requires p in Assign(bindable, taken, wants, n).chosen
    ensures exists i :: 0 <= i < n && LeastAt(bindable, taken, wants, i, p, Assign(bindable, taken, wants, n).chosen[p])
  {
    if n > 0 {
      var a := Assign(bindable, taken, wants, n - 1);
      if p in a.chosen {
        PortsAreLeast(bindable, taken, wants, n - 1, p);
      } else {
        assert FoundAt(bindable, taken, wants, n - 1);
        NextPortIsLeast(bindable, a.reserved, p);
        assert LeastAt(bindable, taken, wants, n - 1, p, Assign(bindable, taken, wants, n).chosen[p]);
      }
    }
  }

  /** What the stack's file then says: a spec that published `p` now publishes the port chosen for
      `p`, the same for every spec that did. */
  lemma SpecsReadBack(toInt: string -> Option<int>, bindable: int -> bool, taken: set<int>, ports: seq<Mapping>, i: nat)
    requires ReadsDecimals(toInt) && i < |ports|
    ensures var wants := Wants(toInt, ports);
            var chosen := Assign(bindable, taken, wants, |ports|).chosen;
            if Wanted(wants[i])
            then wants[i].value in chosen
                 && PublishedPort(toInt, Allocated(chosen, wants[i], ports[i])) == Some(chosen[wants[i].value])
                 && Allocated(chosen, wants[i], ports[i]) == ReplacePublishedPort(ports[i], chosen[wants[i].value])
            else Allocated(chosen, wants[i], ports[i]) == ports[i]
  {
    var wants := Wants(toInt, ports);
    var chosen := Assign(bindable, taken, wants, |ports|).chosen;
    if Wanted(wants[i]) {
      ChosenAreReserved(bindable, taken, wants, |ports|);
      ReplacedPortReadsBack(toInt, ports[i], chosen[wants[i].value]);
    }
  }

  /******* Named ports *******/

  function SetOf(s: seq<int>): set<int> { set x | x in s }

  /** Named ports are searched one after the other and never shared. */
  function NamedPorts(bindable: int -> bool, taken: set<int>, preferences: seq<int>, n: nat): (ports: seq<int>)
    requires n <= |preferences|
    ensures |ports| == n
  {
    if n == 0 then []
    else
      var ports := NamedPorts(bindable, taken, preferences, n - 1);
      ports + [NextPort(bindable, taken + SetOf(ports), preferences[n - 1])]
  }

  method AllocatedNamedPorts(bindable: int -> bool, taken: set<int>, names: seq<string>, preferences: seq<int>)
    returns (ports: map<string, int>)
    requires |names| == |preferences| && Distinct(names)
    ensures forall name :: name in ports <==> name in names
    ensures forall i :: 0 <= i < |names| ==> ports[names[i]] == NamedPorts(bindable, taken, preferences, |names|)[i]
  {
    hide NextPort;
    var reserved := taken;
    ports := map[];
    for n := 0 to |names|
      invariant reserved == taken + SetOf(NamedPorts(bindable, taken, preferences, n))
      invariant forall name :: name in ports <==> name in names[..n]
      invariant forall i :: 0 <= i < n ==> names[i] in ports && ports[names[i]] == NamedPorts(bindable, taken, preferences, n)[i]
    {
      var port := NextAvailableHostPort(bindable, reserved, preferences[n]);
      ports := ports[names[n] := port];
      reserved := reserved + {port};
      assert names[..n + 1] == names[..n] + [names[n]];
    }
    assert names[..|names|] == names;
  }

  ghost predicate FreeOf(bindable: int -> bool, taken: set<int>, ports: seq<int>, q: int) {
    q !in taken && q !in ports && 1 <= q < 65536 && bindable(q)
  }

  /** `r` is the least free one of the 200 ports from `p` on, or `p` if none is. */
  ghost predicate LeastFree(bindable: int -> bool, taken: set<int>, ports: seq<int>, p: int, r: int) {
    if exists q :: p <= q < p + 200 && FreeOf(bindable, taken, ports, q)
    then p <= r < p + 200 && FreeOf(bindable, taken, ports, r) && forall q :: p <= q < r ==> !FreeOf(bindable, taken, ports, q)
    else r == p
  }

  /** Each name in turn gets the least of the 200 ports from its preference on that is free and not given to
      a name before it, or its preference if there is none. */
  lemma {:induction false} NamedInTurn(bindable: int -> bool, taken: set<int>, preferences: seq<int>, n: nat, i: nat)
    requires i < n <= |preferences|
    ensures var ports := NamedPorts(bindable, taken, preferences, n);
            LeastFree(bindable, taken, ports[..i], preferences[i], ports[i])
  {
    hide *;
    var before, ports := NamedPorts(bindable, taken, preferences, n - 1), NamedPorts(bindable, taken, preferences, n);
    OneMoreNamed(bindable, taken, preferences, n - 1);
    if i < n - 1 {
      NamedInTurn(bindable, taken, preferences, n - 1, i);
      assert ports[..i] == before[..i];
    } else {
      LeastOfFree(bindable, taken, before, preferences[i]);
      assert ports[..i] == before;
    }
  }

  lemma OneMoreNamed(bindable: int -> bool, taken: set<int>, preferences: seq<int>, n: nat)
    requires n < |preferences|
    ensures var ports := NamedPorts(bindable, taken, preferences, n);
            NamedPorts(bindable, taken, preferences, n + 1) == ports + [NextPort(bindable, taken + SetOf(ports), preferences[n])]
  {
    hide NextPort, SetOf;
  }

  lemma LeastOfFree(bindable: int -> bool, taken: set<int>, ports: seq<int>, p: int)
    ensures LeastFree(bindable, taken, ports, p, NextPort(bindable, taken + SetOf(ports), p))
  {
    assert forall q :: FreeOf(bindable, taken, ports, q) <==> Usable(bindable, taken + SetOf(ports), q);
    hide FreeOf, Usable, NextPort;
    NextPortIsLeast(bindable, taken + SetOf(ports), p);
  }

  /** Whatever the names prefer, their ports are usable and all different exactly when every search
      finds one. */
  lemma {:induction false} NamedPortsDoNotClash(bindable: int -> bool, taken: set<int>, preferences: seq<int>, n: nat)
    requires n <= |preferences|
    ensures NoneShared(bindable, taken, NamedPorts(bindable, taken, preferences, n)) <==>
            AllNamedFound(bindable, taken, preferences, n)
  {
    assert NamedPorts(bindable, taken, preferences, 0) == [];
    assert NoneShared(bindable, taken, []) && AllNamedFound(bindable, taken, preferences, 0);
    hide *;
    if n > 0 {
      NamedPortsDoNotClash(bindable, taken, preferences, n - 1);
      var front := NamedPorts(bindable, taken, preferences, n - 1);
      var port := NextPort(bindable, taken + SetOf(front), preferences[n - 1]);
      NamedFoundMeans(bindable, taken, preferences, n - 1);
      OneMoreNamedFound(bindable, taken, preferences, n - 1);
      NoneSharedWithOneMore(bindable, taken, front, port);
    }
  }

  ghost predicate AllNamedFound(bindable: int -> bool, taken: set<int>, preferences: seq<int>, n: nat)
    requires n <= |preferences|
  {
    forall i :: 0 <= i < n ==> NamedFoundAt(bindable, taken, preferences, i)
  }

  lemma OneMoreNamedFound(bindable: int -> bool, taken: set<int>, preferences: seq<int>, n: nat)
    requires n < |preferences|
    ensures AllNamedFound(bindable, taken, preferences, n + 1) <==>
            AllNamedFound(bindable, taken, preferences, n) && NamedFoundAt(bindable, taken, preferences, n)
  {
  }

  lemma NamedFoundMeans(bindable: int -> bool, taken: set<int>, preferences: seq<int>, n: nat)
    requires n < |preferences|
    ensures var front := NamedPorts(bindable, taken, preferences, n);
            var port := NextPort(bindable, taken + SetOf(front), preferences[n]);
            && NamedPorts(bindable, taken, preferences, n + 1) == front + [port]
            && (NamedFoundAt(bindable, taken, preferences, n) <==> port !in front && Usable(bindable, taken, port))
  {
    var front := NamedPorts(bindable, taken, preferences, n);
    assert NamedPorts(bindable, taken, preferences, n + 1) ==
           front + [NextPort(bindable, taken + SetOf(front), preferences[n])];
    hide NextPort, WindowHasRoom, NamedPorts;
    NextPortIsLeast(bindable, taken + SetOf(front), preferences[n]);
  }

  ghost predicate NoneShared(bindable: int -> bool, taken: set<int>, ports: seq<int>) {
    Distinct(ports) && forall i :: 0 <= i < |ports| ==> Usable(bindable, taken, ports[i])
  }

  lemma NoneSharedWithOneMore(bindable: int -> bool, taken: set<int>, s: seq<int>, x: int)
    ensures NoneShared(bindable, taken, s + [x]) <==>
            NoneShared(bindable, taken, s) && x !in s && Usable(bindable, taken, x)
  {
    hide Usable;
    if x in s {
      var i :| 0 <= i < |s| && s[i] == x;
      assert (s + [x])[i] == (s + [x])[|s|];
    }
    assert (s + [x])[|s|] == x && forall i :: 0 <= i < |s| ==> (s + [x])[i] == s[i];
  }

  ghost predicate NamedFoundAt(bindable: int -> bool, taken: set<int>, preferences: seq<int>, n: nat)
    requires n < |preferences|
  {
    WindowHasRoom(bindable, taken + SetOf(NamedPorts(bindable, taken, preferences, n)), preferences[n])
  }
}
