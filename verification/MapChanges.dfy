/**
 What the operations of the network map change: an edit, the reports of a scan, a mesh report and
 the Zigbee bridge's lists.
 */
module MapChanges {
  import opened Common
  import opened DeviceGraph
  import opened Promotion
  import opened Stripping
  import Mesh

  const MAX_TEXT := 160
  const MAX_REPORTED := 2000
  const MAX_LINKS := 10000

  /** The parts of an edit that bear on the graph. */
  datatype Patch = Patch(title: Option<string>, parent: Option<string>, connection: Option<string>)

  predicate ValidPatch(p: Patch) {
    && (p.title.Some? ==> |p.title.value| <= MAX_TEXT)
    && (p.parent.Some? ==> |p.parent.value| <= MAX_TEXT)
    && (p.connection.Some? ==> p.connection.value in ["lan", "wlan", "unknown"])
  }

  function Patched(d: Device, p: Patch): Device {
    d.(title := if p.title.Some? then Strip(p.title.value, Space) else d.title,
       parent := if p.parent.Some? then Strip(p.parent.value, Space) else d.parent,
       connection := if p.connection.Some? then p.connection.value else d.connection)
  }

  /** A device report from a scan: an identity of its own, a MAC, an address. */
  datatype Found = Found(id: string, mac: string, ip: string)

  function IdentityOf(f: Found): string {
    if f.id != "" then f.id else "lan:" + (if f.mac != "" then f.mac else f.ip)
  }

  /** A report stands for the identity it brings, else for its MAC's, else for its address's. */
  ghost predicate StandsFor(f: Found, id: string) {
    && (f.id != "" ==> id == f.id)
    && (f.id == "" && f.mac != "" ==> id == "lan:" + f.mac)
    && (f.id == "" && f.mac == "" ==> id == "lan:" + f.ip)
  }

  /** A LAN device known only by the address this report carries. */
  predicate SameAddress(d: Devices, x: string, f: Found) {
    x in d && x != IdentityOf(f) && d[x].network == "lan" && f.ip != "" && d[x].ip == f.ip && d[x].mac == ""
  }

  const NEW_DEVICE := Device("", "", "", "", "", "")

  function Merged(d: Device, f: Found): Device {
    d.(network := "lan", ip := f.ip, mac := if f.mac != "" then f.mac else d.mac)
  }

  /** Changing or adding devices without touching parents keeps the graph. */
  lemma ParentsUnchangedKeepsGraph(d: Devices, e: Devices, edges: seq<Edge>)
    requires WellFormed(d, edges) && "" !in e && d.Keys <= e.Keys
    requires forall x :: x in e ==> e[x].parent == (if x in d then d[x].parent else "")
    ensures WellFormed(e, edges)
  {
    forall x | x in e
      ensures Rooted(e, x)
    {
      if x in d {
        var k: nat :| Up(d, x, k) == "";
        SameParentsSameWalk(d, e, x, k);
      } else {
        assert Up(e, x, 0) == x && Up(e, x, 1) == "";
      }
    }
    forall i | 0 <= i < |edges|
      ensures ManualFits(e, edges[i])
    {
      assert ManualFits(d, edges[i]);
    }
  }

  lemma {:induction false} SameParentsSameWalk(d: Devices, e: Devices, x: string, k: nat)
    requires "" !in e && d.Keys <= e.Keys && forall y :: y in e ==> e[y].parent == (if y in d then d[y].parent else "")
    ensures Up(e, x, k) == Up(d, x, k)
  {
    if k > 0 { SameParentsSameWalk(d, e, x, k - 1); }
  }

  function KeepOrigin(edges: seq<Edge>, drop: Origin): (rest: seq<Edge>)
    ensures forall e :: e in rest <==> e in edges && e.origin != drop
    ensures |rest| <= |edges|
  {
    if edges == [] then []
    else
      var e := edges[|edges| - 1];
      var rest := KeepOrigin(edges[..|edges| - 1], drop);
      if e.origin == drop then rest else rest + [e]
  }

  lemma KeepOriginOneMore(edges: seq<Edge>, e: Edge, drop: Origin)
    ensures KeepOrigin(edges + [e], drop) == KeepOrigin(edges, drop) + if e.origin == drop then [] else [e]
  {
    assert (edges + [e])[..|edges|] == edges;
  }

  /** What is kept of a list is what is kept of its parts, one after the other. */
  lemma {:induction false} KeepOriginInOrder(a: seq<Edge>, b: seq<Edge>, drop: Origin)
    ensures KeepOrigin(a + b, drop) == KeepOrigin(a, drop) + KeepOrigin(b, drop)
  {
    hide KeepOrigin;
    if b == [] {
      assert a + b == a;
    } else {
      var n := |b| - 1;
      KeepOriginInOrder(a, b[..n], drop);
      KeepOriginOneMore(b[..n], b[n], drop);
      KeepOriginOneMore(a + b[..n], b[n], drop);
      assert b == b[..n] + [b[n]] && a + b == a + b[..n] + [b[n]];
    }
  }

  lemma {:induction false} KeepOriginKeepsDistinct(edges: seq<Edge>, drop: Origin)
    requires OneManualPerChild(edges)
    ensures OneManualPerChild(KeepOrigin(edges, drop))
  {
    if edges != [] {
      var n := |edges| - 1;
      assert forall i :: 0 <= i < n ==> edges[..n][i] == edges[i];
      KeepOriginKeepsDistinct(edges[..n], drop);
      forall x | x in KeepOrigin(edges[..n], drop) && x.origin == Manual && edges[n].origin == Manual
        ensures x.target != edges[n].target
      {
        var i :| 0 <= i < n && edges[..n][i] == x;
        assert edges[i] == x;
      }
      if edges[n].origin != drop {
        AppendEdge(KeepOrigin(edges[..n], drop), edges[n]);
      }
    }
  }

  /** Replacing one reporter's edges by new ones between known devices keeps the graph. */
  lemma ReplacingReportedKeepsGraph(d: Devices, edges: seq<Edge>, drop: Origin, added: seq<Edge>)
    requires WellFormed(d, edges) && drop != Manual
    requires forall e :: e in added ==> e.origin == drop && e.source in d && e.target in d
    ensures WellFormed(d, KeepOrigin(edges, drop) + added)
  {
    var kept := KeepOrigin(edges, drop);
    var after := kept + added;
    KeepOriginKeepsDistinct(edges, drop);
    AppendReported(kept, added, drop);
    forall i | 0 <= i < |after|
      ensures ManualFits(d, after[i]) && after[i].source in d && after[i].target in d
    {
      assert after[i] in kept || after[i] in added;
      if after[i] in kept {
        var j :| 0 <= j < |edges| && edges[j] == after[i];
        assert ManualFits(d, edges[j]);
      }
    }
    forall x | x in d && d[x].parent != ""
      ensures HasManual(after, x)
    {
      HasManualMember(edges, x);
      var m :| m in edges && m.origin == Manual && m.target == x;
      assert m in kept;
      HasManualMember(after, x);
    }
  }

  lemma AppendReported(kept: seq<Edge>, added: seq<Edge>, drop: Origin)
    requires OneManualPerChild(kept) && drop != Manual && forall e :: e in added ==> e.origin == drop
    ensures OneManualPerChild(kept + added)
  {
  }

  /** After `k` steps up from `parent`, `seen` holds `id` and every device passed. */
  ghost predicate SeenWalk(d: Devices, parent: string, id: string, k: nat, seen: set<string>) {
    && id in seen && seen <= d.Keys
    && (forall x :: x in seen && x != id ==> exists j: nat :: j < k && Up(d, parent, j) == x)
    && (forall j: nat :: j < k ==> Up(d, parent, j) in seen && Up(d, parent, j) != id)
  }

  /** A walk that stands on a device seen before, or on an unknown one, is not clear,
      whatever lies beyond. */
  lemma WalkBlocked(d: Devices, parent: string, id: string, k: nat, seen: set<string>)
    requires "" !in d && Up(d, parent, k) != "" && SeenWalk(d, parent, id, k, seen)
    requires Up(d, parent, k) in seen || Up(d, parent, k) !in d
    ensures !ClearWalk(d, parent, id)
  {
    if end: nat :| Up(d, parent, end) == "" && forall j: nat :: j < end ==> Up(d, parent, j) in d && Up(d, parent, j) != id {
      if end <= k {
        UpStaysPast(d, parent, end, k);
      } else {
        var j: nat :| j < k && Up(d, parent, j) == Up(d, parent, k);
        WalkRepeats(d, parent, j, k, end);
      }
    }
  }

  lemma WalkOn(d: Devices, parent: string, id: string, k: nat, seen: set<string>)
    requires SeenWalk(d, parent, id, k, seen) && Up(d, parent, k) in d && Up(d, parent, k) !in seen
    ensures SeenWalk(d, parent, id, k + 1, seen + {Up(d, parent, k)})
    ensures Up(d, parent, k + 1) == d[Up(d, parent, k)].parent
  {
  }

  lemma WalkDone(d: Devices, parent: string, id: string, k: nat, seen: set<string>)
    requires SeenWalk(d, parent, id, k, seen) && Up(d, parent, k) == ""
    ensures ClearWalk(d, parent, id)
  {
  }

  lemma Shrinks(all: set<string>, seen: set<string>, x: string)
    requires x in all && x !in seen
    ensures |all - (seen + {x})| < |all - seen|
  {
    assert all - seen == (all - (seen + {x})) + {x};
  }

  /** Rewriting or adding a record without touching its parent: the graph is as good as before. */
  lemma RecordingKeepsGraph(d: Devices, edges: seq<Edge>, id: string, device: Device)
    requires "" !in d && id != "" && device.parent == (if id in d then d[id].parent else "")
    ensures WellFormed(d, edges) ==> WellFormed(d[id := device], edges)
    ensures id in d && WellFormed(d[id := device], edges) ==> WellFormed(d, edges)
  {
    var e := d[id := device];
    if WellFormed(d, edges) {
      ParentsUnchangedKeepsGraph(d, e, edges);
    }
    if id in d && WellFormed(e, edges) {
      ParentsUnchangedKeepsGraph(e, d, edges);
    }
  }

  /******* A scan's effect *******/

  function Put(d: Devices, f: Found): Devices {
    var id := IdentityOf(f);
    d[id := Merged(if id in d then d[id] else NEW_DEVICE, f)]
  }

  function MergedDevices(d: Devices, f: Found, promoted: Option<string>): Devices
    requires promoted.Some? ==> promoted.value in d
  {
    Put(if promoted.Some? then PromoteDevices(d, promoted.value, IdentityOf(f)) else d, f)
  }

  function MergedEdges(edges: seq<Edge>, f: Found, promoted: Option<string>): seq<Edge> {
    if promoted.Some? then PromoteEdges(edges, promoted.value, IdentityOf(f)) else edges
  }

  ghost predicate Harmless(d: Devices, f: Found, promoted: Option<string>) {
    promoted.Some? ==> SafeTarget(d, promoted.value, IdentityOf(f))
  }

  ghost predicate Plausible(d: Devices, f: Found, promoted: Option<string>) {
    if promoted.Some? then SameAddress(d, promoted.value, f) else forall x :: !SameAddress(d, x, f)
  }

  /** What a report leaves, if it promoted no device: its record holds what it said and keeps the
      rest, and every other record is as before. */
  ghost predicate Recorded(before: Devices, after: Devices, f: Found, id: string) {
    && StandsFor(f, id) && after.Keys == before.Keys + {id}
    && (forall x :: x in before && x != id ==> after[x] == before[x])
    && after[id].network == "lan" && after[id].ip == f.ip && (f.mac != "" ==> after[id].mac == f.mac)
    && (id in before ==>
          && after[id].title == before[id].title && after[id].connection == before[id].connection
          && after[id].parent == before[id].parent && (f.mac == "" ==> after[id].mac == before[id].mac))
    && (id !in before ==>
          && after[id].title == "" && after[id].connection == "" && after[id].parent == ""
          && (f.mac == "" ==> after[id].mac == ""))
  }

  /** What a report leaves that promoted `from`: its record takes over what `from` had, `from` is
      gone, and a child of it is now a child of the new identity. */
  ghost predicate RecordedInPlaceOf(before: Devices, after: Devices, f: Found, id: string, from: string) {
    && StandsFor(f, id) && from in before && from != id && after.Keys == before.Keys - {from} + {id}
    && (forall x :: x in before && x != id && x != from ==>
          after[x] == before[x].(parent := if before[x].parent == from then id else before[x].parent))
    && after[id].network == "lan" && after[id].ip == f.ip && (f.mac != "" ==> after[id].mac == f.mac)
    && after[id].title == before[from].title && after[id].connection == before[from].connection
    && after[id].parent == (if before[from].parent == from then id else before[from].parent)
    && (f.mac == "" ==> after[id].mac == before[from].mac)
  }

  /** Every edge at the promoted device is now at the new identity, in its old place. */
  ghost predicate Rewired(before: seq<Edge>, after: seq<Edge>, id: string, from: string) {
    && |after| == |before|
    && forall i :: 0 <= i < |before| ==>
         && after[i].origin == before[i].origin && after[i].kind == before[i].kind
         && after[i].source == (if before[i].source == from then id else before[i].source)
         && after[i].target == (if before[i].target == from then id else before[i].target)
  }

  lemma ReportIsRecorded(d: Devices, edges: seq<Edge>, f: Found, promoted: Option<string>)
    requires promoted.Some? ==> promoted.value in d && promoted.value != IdentityOf(f)
    ensures promoted.None? ==> Recorded(d, MergedDevices(d, f, promoted), f, IdentityOf(f)) && MergedEdges(edges, f, promoted) == edges
    ensures promoted.Some? ==>
              && RecordedInPlaceOf(d, MergedDevices(d, f, promoted), f, IdentityOf(f), promoted.value)
              && Rewired(edges, MergedEdges(edges, f, promoted), IdentityOf(f), promoted.value)
  {
  }

  /** The graph after a scan whose reports promoted the devices listed, and whether each
      promotion was harmless when it happened. */
  ghost predicate ScanResult(d: Devices, edges: seq<Edge>, found: seq<Found>, promoted: seq<Option<string>>,
                             e: Devices, after: seq<Edge>, harmless: bool)
    requires |promoted| == |found|
  {
    if found == [] then e == d && after == edges && harmless
    else
      var n := |found| - 1;
      exists m: Devices, between: seq<Edge>, h: bool ::
        && ScanResult(d, edges, found[..n], promoted[..n], m, between, h)
        && ScanStep(m, between, found[n], promoted[n], e, after)
        && harmless == (h && Harmless(m, found[n], promoted[n]))
  }

  ghost predicate ScanStep(m: Devices, between: seq<Edge>, f: Found, promoted: Option<string>, e: Devices, after: seq<Edge>) {
    Plausible(m, f, promoted) && e == MergedDevices(m, f, promoted) && after == MergedEdges(between, f, promoted)
  }

  lemma NothingScanned(d: Devices, edges: seq<Edge>)
    ensures ScanResult(d, edges, [], [], d, edges, true)
  {
  }

  lemma ScanOneMore(d: Devices, edges: seq<Edge>, found: seq<Found>, promoted: seq<Option<string>>,
                    m: Devices, between: seq<Edge>, h: bool, f: Found, p: Option<string>, e: Devices, after: seq<Edge>)
    requires |promoted| == |found| && ScanResult(d, edges, found, promoted, m, between, h)
    requires ScanStep(m, between, f, p, e, after)
    ensures ScanResult(d, edges, found + [f], promoted + [p], e, after, h && Harmless(m, f, p))
  {
    var fs, ps, n := found + [f], promoted + [p], |found|;
    assert fs[..n] == found && ps[..n] == promoted && fs[n] == f && ps[n] == p;
    assert ScanResult(d, edges, fs[..n], ps[..n], m, between, h) && ScanStep(m, between, fs[n], ps[n], e, after);
    hide ScanStep, Harmless;
  }

  /******* A mesh report's effect *******/

  function ByHand(d: Devices): set<string> {
    set x | x in d && d[x].parent != ""
  }

  function KindName(m: Mesh.Medium): string {
    match m
    case OverLan => "lan"
    case OverWlan => "wlan"
    case OverUnknown => "unknown"
  }

  /** Connections as the map names them. */
  ghost function ConnectionName(m: Mesh.Medium): (name: string)
    ensures m == Mesh.OverLan <==> name == "lan"
    ensures m == Mesh.OverWlan <==> name == "wlan"
    ensures m == Mesh.OverUnknown <==> name == "unknown"
  {
    KindName(m)
  }

  function FromMesh(d: Device, r: Mesh.Device, byHand: bool): Device {
    d.(network := "lan", mac := r.mac, ip := if r.ip != "" then r.ip else d.ip,
       connection := if !byHand && r.connection.Some? then KindName(r.connection.value) else d.connection)
  }

  /** The map's devices after the rows of a mesh report, those placed by hand keeping their connection. */
  function TakeRows(d: Devices, rows: seq<Mesh.Device>, byHand: set<string>): (after: Devices)
    ensures forall x :: x in after <==> x in d || Mesh.Named(rows, x)
    ensures forall x :: x in after ==> after[x].parent == if x in d then d[x].parent else ""
    ensures forall x :: x in d && x in byHand ==> after[x].connection == d[x].connection
  {
    if rows == [] then d
    else
      var before, r := TakeRows(d, rows[..|rows| - 1], byHand), rows[|rows| - 1];
      NamedGrows(rows, |rows| - 1);
      assert rows[..|rows|] == rows;
      before[r.id := FromMesh(if r.id in before then before[r.id] else NEW_DEVICE, r, r.id in byHand)]
  }

  /** What one more row changes: its own device, and of that only what it gives. */
  lemma RowIsTaken(d: Devices, rows: seq<Mesh.Device>, byHand: set<string>, x: string)
    requires rows != [] && x in TakeRows(d, rows, byHand)
    ensures var n := |rows| - 1;
            var earlier, r, after := TakeRows(d, rows[..n], byHand), rows[n], TakeRows(d, rows, byHand)[x];
            if x != r.id then x in earlier && after == earlier[x]
            else
              var before := if x in earlier then earlier[x] else Device("", "", "", "", "", "");
              && after.parent == before.parent && after.title == before.title
              && after.network == "lan" && after.mac == r.mac && after.ip == (if r.ip == "" then before.ip else r.ip)
              && after.connection == if x in byHand || r.connection.None? then before.connection
                                     else ConnectionName(r.connection.value)
  {
  }

  lemma RowIsThere(d: Devices, rows: seq<Mesh.Device>, byHand: set<string>, i: nat)
    requires i < |rows|
    ensures rows[i].id in TakeRows(d, rows, byHand)
  {
    hide TakeRows;
    assert rows[i] in rows;
  }

  /** What the last row of a device says: its MAC, the LAN, and its address and connection if given. */
  lemma {:induction false} LastRowIsTaken(d: Devices, rows: seq<Mesh.Device>, byHand: set<string>, i: nat)
    requires i < |rows| && rows[i].id in TakeRows(d, rows, byHand) && forall j :: i < j < |rows| ==> rows[j].id != rows[i].id
    ensures TakeRows(d, rows, byHand)[rows[i].id].mac == rows[i].mac
    ensures TakeRows(d, rows, byHand)[rows[i].id].network == "lan"
    decreases |rows|
  {
    hide *;
    var n := |rows| - 1;
    RowIsTaken(d, rows, byHand, rows[i].id);
    if i < n {
      RowIsThere(d, rows[..n], byHand, i);
      assert rows[..n][i] == rows[i];
      LastRowIsTaken(d, rows[..n], byHand, i);
    }
  }

  /** An address that no later row of the device gives anew stays. */
  lemma {:induction false} AddressStays(d: Devices, rows: seq<Mesh.Device>, byHand: set<string>, i: nat)
    requires i < |rows| && rows[i].id in TakeRows(d, rows, byHand) && rows[i].ip != ""
    requires forall j :: i < j < |rows| && rows[j].id == rows[i].id ==> rows[j].ip == ""
    ensures TakeRows(d, rows, byHand)[rows[i].id].ip == rows[i].ip
    decreases |rows|
  {
    hide *;
    var n := |rows| - 1;
    RowIsTaken(d, rows, byHand, rows[i].id);
    if i < n {
      RowIsThere(d, rows[..n], byHand, i);
      assert rows[..n][i] == rows[i];
      AddressStays(d, rows[..n], byHand, i);
    }
  }

  /** So does a connection, unless the device was placed by hand. */
  lemma {:induction false} ConnectionStays(d: Devices, rows: seq<Mesh.Device>, byHand: set<string>, i: nat)
    requires i < |rows| && rows[i].id in TakeRows(d, rows, byHand) && rows[i].connection.Some? && rows[i].id !in byHand
    requires forall j :: i < j < |rows| && rows[j].id == rows[i].id ==> rows[j].connection.None?
    ensures TakeRows(d, rows, byHand)[rows[i].id].connection == ConnectionName(rows[i].connection.value)
    decreases |rows|
  {
    hide *;
    var n := |rows| - 1;
    RowIsTaken(d, rows, byHand, rows[i].id);
    if i < n {
      RowIsThere(d, rows[..n], byHand, i);
      assert rows[..n][i] == rows[i];
      ConnectionStays(d, rows[..n], byHand, i);
    }
  }

  /** What no row of a device gives stays as it was. */
  lemma {:induction false} NotGivenStays(d: Devices, rows: seq<Mesh.Device>, byHand: set<string>, x: string)
    requires x in d
    ensures TakeRows(d, rows, byHand)[x].title == d[x].title
    ensures (forall j :: 0 <= j < |rows| ==> rows[j].id != x) ==> TakeRows(d, rows, byHand)[x] == d[x]
    ensures (forall j :: 0 <= j < |rows| && rows[j].id == x ==> rows[j].ip == "") ==>
              TakeRows(d, rows, byHand)[x].ip == d[x].ip
    ensures (forall j :: 0 <= j < |rows| && rows[j].id == x ==> rows[j].connection.None?) ==>
              TakeRows(d, rows, byHand)[x].connection == d[x].connection
  {
    if rows == [] {
      TakeNothing(d, rows, byHand);
      assert rows[..0] == rows;
    } else {
      var n := |rows| - 1;
      NotGivenStays(d, rows[..n], byHand, x);
      RowIsTaken(d, rows, byHand, x);
    }
    hide TakeRows;
  }

  lemma TakeNothing(d: Devices, rows: seq<Mesh.Device>, byHand: set<string>)
    ensures TakeRows(d, rows[..0], byHand) == d
  {
  }

  lemma TakeOneMore(d: Devices, rows: seq<Mesh.Device>, i: nat, byHand: set<string>)
    requires i < |rows|
    ensures var before, r := TakeRows(d, rows[..i], byHand), rows[i];
            TakeRows(d, rows[..i + 1], byHand) ==
              before[r.id := FromMesh(if r.id in before then before[r.id] else NEW_DEVICE, r, r.id in byHand)]
  {
    hide FromMesh;
    assert rows[..i + 1][..i] == rows[..i];
  }

  /** Whether a bridge's list of addresses names a device. */
  ghost predicate Lists(addresses: seq<string>, x: string) {
    exists a :: a in addresses && a != "" && x == "zigbee:" + a
  }

  lemma OneMoreListed(addresses: seq<string>, a: string, x: string)
    ensures Lists(addresses + [a], x) <==> Lists(addresses, x) || (a != "" && x == "zigbee:" + a)
  {
    assert forall b :: b in addresses + [a] <==> b in addresses || b == a;
  }

  /** The map's devices after the bridge's list of addresses. */
  function TakeAddresses(d: Devices, addresses: seq<string>): (after: Devices)
    ensures forall x :: x in after <==> x in d || Lists(addresses, x)
    ensures forall x :: x in after ==> after[x].parent == if x in d then d[x].parent else ""
  {
    if addresses == [] then d
    else
      var before, a := TakeAddresses(d, addresses[..|addresses| - 1]), addresses[|addresses| - 1];
      OneMoreListed(addresses[..|addresses| - 1], a, "zigbee:" + a);
      assert addresses == addresses[..|addresses| - 1] + [a];
      if a == "" then before
      else
        var id := "zigbee:" + a;
        before[id := (if id in before then before[id] else NEW_DEVICE).(network := "zigbee")]
  }

  /** A device's record, a blank one if it has none. */
  ghost function RecordOf(d: Devices, x: string): Device {
    if x in d then d[x] else Device("", "", "", "", "", "")
  }

  /** A listed device is on the Zigbee network and keeps the rest; others are as before. */
  lemma {:induction false} AddressesAreTaken(d: Devices, addresses: seq<string>, x: string)
    ensures RecordOf(TakeAddresses(d, addresses), x) ==
            if Lists(addresses, x) then RecordOf(d, x).(network := "zigbee") else RecordOf(d, x)
  {
    assert addresses == [] ==> !Lists(addresses, x) && TakeAddresses(d, addresses) == d;
    hide *;
    if addresses != [] {
      var n := |addresses| - 1;
      AddressesAreTaken(d, addresses[..n], x);
      OneMoreListed(addresses[..n], addresses[n], x);
      OneMoreAddress(d, addresses, x);
      assert addresses == addresses[..n] + [addresses[n]];
    }
  }

  lemma OneMoreAddress(d: Devices, addresses: seq<string>, x: string)
    requires addresses != []
    ensures var n := |addresses| - 1;
            var before := RecordOf(TakeAddresses(d, addresses[..n]), x);
            RecordOf(TakeAddresses(d, addresses), x) ==
              if addresses[n] != "" && x == "zigbee:" + addresses[n] then before.(network := "zigbee") else before
  {
  }

  lemma TakeNoAddress(d: Devices, addresses: seq<string>)
    ensures TakeAddresses(d, addresses[..0]) == d
  {
  }

  lemma TakeOneMoreAddress(d: Devices, addresses: seq<string>, i: nat)
    requires i < |addresses|
    ensures var before, a := TakeAddresses(d, addresses[..i]), addresses[i];
            TakeAddresses(d, addresses[..i + 1]) ==
              if a == "" then before
              else before["zigbee:" + a := (if "zigbee:" + a in before then before["zigbee:" + a] else NEW_DEVICE).(network := "zigbee")]
  {
    assert addresses[..i + 1][..i] == addresses[..i];
  }

  /** The edge of a link between two different known devices. */
  ghost predicate IsLink(d: Devices, l: (string, string), e: Edge) {
    && e.source == "zigbee:" + l.0 && e.target == "zigbee:" + l.1 && e.origin == Zigbee && e.kind == ""
    && e.source in d && e.target in d && e.source != e.target
  }

  /** Every link between two different known devices has its edge, and there are no other edges. */
  lemma {:induction false} LinksAreTheEdges(d: Devices, links: seq<(string, string)>, e: Edge)
    ensures e in ZigbeeEdges(d, links) <==> exists l :: l in links && IsLink(d, l, e)
  {
    if links != [] {
      var n := |links| - 1;
      LinksAreTheEdges(d, links[..n], e);
      assert links == links[..n] + [links[n]];
      assert e in ZigbeeEdges(d, links) <==> e in ZigbeeEdges(d, links[..n]) || IsLink(d, links[n], e);
    }
  }

  /** Link by link: what a list of links gives is what its parts give, one after the other. */
  lemma {:induction false} LinksInOrder(d: Devices, a: seq<(string, string)>, b: seq<(string, string)>)
    ensures ZigbeeEdges(d, a + b) == ZigbeeEdges(d, a) + ZigbeeEdges(d, b)
  {
    if b == [] {
      assert a + b == a;
    } else {
      var n := |b| - 1;
      LinksInOrder(d, a, b[..n]);
      assert (a + b)[..|a + b| - 1] == a + b[..n];
    }
  }

  /** The bridge's links between two different known devices, in order. */
  function ZigbeeEdges(d: Devices, links: seq<(string, string)>): (edges: seq<Edge>)
    ensures forall e :: e in edges ==> e.origin == Zigbee && e.source in d && e.target in d && e.source != e.target
    ensures |edges| <= |links|
  {
    if links == [] then []
    else
      var before, l := ZigbeeEdges(d, links[..|links| - 1]), links[|links| - 1];
      var source, target := "zigbee:" + l.0, "zigbee:" + l.1;
      if source in d && target in d && source != target then before + [Edge(source, target, Zigbee, "")] else before
  }

  function FritzEdges(edges: seq<Mesh.Edge>, byHand: set<string>): (after: seq<Edge>)
    ensures forall e :: e in after <==> exists m :: m in edges && m.target !in byHand
                                                   && e == Edge(m.source, m.target, Fritz, ConnectionName(m.medium))
    ensures |after| <= |edges|
  {
    if edges == [] then []
    else
      var m := edges[|edges| - 1];
      var rest := FritzEdges(edges[..|edges| - 1], byHand);
      assert edges == edges[..|edges| - 1] + [m];
      if m.target in byHand then rest else rest + [Edge(m.source, m.target, Fritz, KindName(m.medium))]
  }

  lemma {:induction false} MeshEdgesInOrder(a: seq<Mesh.Edge>, b: seq<Mesh.Edge>, byHand: set<string>)
    ensures FritzEdges(a + b, byHand) == FritzEdges(a, byHand) + FritzEdges(b, byHand)
  {
    hide FritzEdges, KindName, ConnectionName;
    if b == [] {
      assert a + b == a;
    } else {
      var n := |b| - 1;
      MeshEdgesInOrder(a, b[..n], byHand);
      OneMoreMeshEdge(b[..n], b[n], byHand);
      OneMoreMeshEdge(a + b[..n], b[n], byHand);
      assert b == b[..n] + [b[n]] && a + b == a + b[..n] + [b[n]];
    }
  }

  lemma OneMoreMeshEdge(edges: seq<Mesh.Edge>, m: Mesh.Edge, byHand: set<string>)
    ensures FritzEdges(edges + [m], byHand) ==
            FritzEdges(edges, byHand) + if m.target in byHand then [] else [Edge(m.source, m.target, Fritz, KindName(m.medium))]
  {
    hide KindName;
    assert (edges + [m])[..|edges|] == edges;
  }

  lemma NamedGrows(rows: seq<Mesh.Device>, i: nat)
    requires i < |rows|
    ensures forall x :: Mesh.Named(rows[..i + 1], x) <==> Mesh.Named(rows[..i], x) || x == rows[i].id
  {
  }

  lemma NoEmptyAddress(addresses: seq<string>)
    ensures !Lists(addresses, "")
  {
  }
}
