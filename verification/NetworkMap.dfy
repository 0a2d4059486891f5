/** The network map's state and the operations that change its graph. */
module NetworkMap {
  import opened Common
  import opened DeviceGraph
  import opened MapChanges
  import opened Promotion
  import opened Stripping
  import Mesh

  class NetworkMap {
    var devices: Devices
    var edges: seq<Edge>

    constructor ()
      ensures devices == map[] && edges == [] && WellFormed(devices, edges)
    {
      devices, edges := map[], [];
    }

    /** Whether the walk up from `parent` is clear of `id`, found by walking it. */
    method WalksClear(parent: string, id: string) returns (ok: bool)
      requires "" !in devices && id in devices
      ensures ok <==> ClearWalk(devices, parent, id)
    {
      hide ClearWalk;
      var seen, cursor := {id}, parent;
      ghost var k := 0;
      while cursor != ""
        invariant SeenWalk(devices, parent, id, k, seen) && cursor == Up(devices, parent, k)
        decreases |devices.Keys - seen|
      {
        if cursor in seen || cursor !in devices {
          WalkBlocked(devices, parent, id, k, seen);
          return false;
        }
        WalkOn(devices, parent, id, k, seen);
        Shrinks(devices.Keys, seen, cursor);
        seen := seen + {cursor};
        cursor := devices[cursor].parent;
        k := k + 1;
      }
      WalkDone(devices, parent, id, k, seen);
      ok := true;
    }

    /** Edit a device; a parent that is unknown or below the device is refused, and a
        refused edit changes nothing. */
    method EditDevice(id: string, p: Patch) returns (ok: bool)
      requires "" !in devices
      modifies this
      ensures ok <==>
                && id in old(devices)
                && (p.title.Some? ==> |p.title.value| <= 160) && (p.parent.Some? ==> |p.parent.value| <= 160)
                && (p.connection.Some? ==> p.connection.value in ["lan", "wlan", "unknown"])
                && ClearWalk(old(devices), if p.parent.Some? then Strip(p.parent.value, Space) else old(devices)[id].parent, id)
      ensures ok ==> devices.Keys == old(devices).Keys && forall x :: x in devices && x != id ==> devices[x] == old(devices)[x]
      ensures ok ==> var before, after := old(devices)[id], devices[id];
                && after.parent == (if p.parent.Some? then Strip(p.parent.value, Space) else before.parent)
                && after.title == (if p.title.Some? then Strip(p.title.value, Space) else before.title)
                && after.connection == (if p.connection.Some? then p.connection.value else before.connection)
                && after.network == before.network && after.ip == before.ip && after.mac == before.mac
      ensures ok && devices[id].parent == "" ==> edges == WithoutManual(old(edges), id)
      ensures ok && devices[id].parent != "" ==>
                edges == WithoutManual(old(edges), id) + [Edge(devices[id].parent, id, Manual, devices[id].connection)]
      ensures !ok ==> devices == old(devices) && edges == old(edges)
      ensures old(WellFormed(devices, edges)) ==> WellFormed(devices, edges)
    {
      hide ClearWalk, WellFormed, WithoutManual, Strip;
      if id !in devices || !ValidPatch(p) { return false; }
      var updated := Patched(devices[id], p);
      ok := WalksClear(updated.parent, id);
      if !ok { return; }
      if WellFormed(devices, edges) {
        ReparentingKeepsGraph(devices, edges, id, updated);
      }
      devices := devices[id := updated];
      edges := WithoutManual(edges, id);
      if updated.parent != "" {
        edges := edges + [Edge(updated.parent, id, Manual, updated.connection)];
      }
    }

    method Promote(from: string, to: string)
      requires from in devices && from != to && to != ""
      modifies this
      ensures devices == PromoteDevices(old(devices), from, to)
      ensures edges == PromoteEdges(old(edges), from, to)
      ensures devices.Keys == old(devices).Keys - {from} + {to}
      ensures forall x :: x in devices ==>
                var before := if x == to then old(devices)[from] else old(devices)[x];
                devices[x] == before.(parent := if before.parent == from then to else before.parent)
      ensures Rewired(old(edges), edges, to, from)
      ensures old(WellFormed(devices, edges)) ==>
                (WellFormed(devices, edges) <==> SafeTarget(old(devices), from, to))
    {
      if WellFormed(devices, edges) {
        PromotionKeepsGraphExactly(devices, edges, from, to);
      }
      devices := PromoteDevices(devices, from, to);
      edges := PromoteEdges(edges, from, to);
    }

    /** Merge one report: promote a LAN device known only by this address, then update or
        add the device. `promoted` names the device promoted, if any was. */
    method MergeOne(f: Found) returns (ghost promoted: Option<string>)
      requires "" !in devices
      modifies this
      ensures Plausible(old(devices), f, promoted) && "" !in devices
      ensures devices == MergedDevices(old(devices), f, promoted)
      ensures edges == MergedEdges(old(edges), f, promoted)
      ensures match promoted
              case None =>
                && Recorded(old(devices), devices, f, IdentityOf(f)) && edges == old(edges)
                && forall x :: x in old(devices) && x != IdentityOf(f) && old(devices)[x].network == "lan" && f.ip != "" ==>
                     !(old(devices)[x].ip == f.ip && old(devices)[x].mac == "")
              case Some(x) =>
                && RecordedInPlaceOf(old(devices), devices, f, IdentityOf(f), x) && Rewired(old(edges), edges, IdentityOf(f), x)
                && old(devices)[x].network == "lan" && f.ip != "" && old(devices)[x].ip == f.ip && old(devices)[x].mac == ""
      ensures old(WellFormed(devices, edges)) ==>
                (WellFormed(devices, edges) <==> Harmless(old(devices), f, promoted))
    {
      var identity := IdentityOf(f);
      promoted := None;
      if x :| x in devices && SameAddress(devices, x, f) {
        promoted := Some(x);
        Promote(x, identity);
      }
      ReportIsRecorded(old(devices), old(edges), f, promoted);
      var d := if identity in devices then devices[identity] else NEW_DEVICE;
      RecordingKeepsGraph(devices, edges, identity, Merged(d, f));
      devices := devices[identity := Merged(d, f)];
    }

    /** Merge a whole scan, report by report. */
    method MergeLan(found: seq<Found>) returns (ghost promoted: seq<Option<string>>, ghost harmless: bool)
      requires "" !in devices
      modifies this
      ensures |promoted| == |found| && "" !in devices
      ensures ScanResult(old(devices), old(edges), found, promoted, devices, edges, harmless)
      ensures old(WellFormed(devices, edges)) && harmless ==> WellFormed(devices, edges)
    {
      promoted, harmless := [], true;
      hide ScanResult, Harmless, WellFormed;
      assert ScanResult(devices, edges, [], [], devices, edges, true) by { NothingScanned(devices, edges); }
      for i := 0 to |found|
        invariant "" !in devices && |promoted| == i
        invariant ScanResult(old(devices), old(edges), found[..i], promoted, devices, edges, harmless)
        invariant old(WellFormed(devices, edges)) && harmless ==> WellFormed(devices, edges)
      {
        ghost var m, between := devices, edges;
        ghost var p := MergeOne(found[i]);
        ScanOneMore(old(devices), old(edges), found[..i], promoted, m, between, harmless, found[i], p, devices, edges);
        assert found[..i + 1] == found[..i] + [found[i]];
        promoted, harmless := promoted + [p], harmless && Harmless(m, found[i], p);
      }
      assert found[..|found|] == found;
    }

    /** Take over a mesh report: its devices, and its edges except into devices whose
        parent was set by hand. */
    method IngestFritz(t: Mesh.Topology)
      requires "" !in devices && Mesh.SimpleGraph(t.devices, t.edges)
      requires forall r :: r in t.devices ==> r.id != ""
      modifies this
      ensures devices == TakeRows(old(devices), t.devices, ByHand(old(devices)))
      ensures edges == KeepOrigin(old(edges), Fritz) + FritzEdges(t.edges, ByHand(old(devices)))
      ensures "" !in devices && (old(WellFormed(devices, edges)) ==> WellFormed(devices, edges))
    {
      hide WellFormed, TakeRows;
      var byHand := ByHand(devices);
      TakeReport(t.devices, byHand);
      assert "" !in devices by { assert !Mesh.Named(t.devices, ""); }
      if old(WellFormed(devices, edges)) {
        ParentsUnchangedKeepsGraph(old(devices), devices, edges);
        ReplacingReportedKeepsGraph(devices, edges, Fritz, FritzEdges(t.edges, byHand));
      }
      edges := KeepOrigin(edges, Fritz) + FritzEdges(t.edges, byHand);
    }

    method TakeReport(rows: seq<Mesh.Device>, byHand: set<string>)
      modifies this`devices
      ensures devices == TakeRows(old(devices), rows, byHand)
    {
      hide FromMesh, TakeRows;
      TakeNothing(devices, rows, byHand);
      for i := 0 to |rows|
        invariant devices == TakeRows(old(devices), rows[..i], byHand)
      {
        var r := rows[i];
        TakeOneMore(old(devices), rows, i, byHand);
        var d := if r.id in devices then devices[r.id] else NEW_DEVICE;
        devices := devices[r.id := FromMesh(d, r, r.id in byHand)];
      }
      assert rows[..|rows|] == rows;
    }

    /** The Zigbee bridge's device list adds and updates devices. */
    method IngestZigbeeDevices(reported: seq<string>)
      requires "" !in devices
      modifies this`devices
      ensures devices == TakeAddresses(old(devices), if |reported| <= 2000 then reported else reported[..2000])
      ensures "" !in devices && (old(WellFormed(devices, edges)) ==> WellFormed(devices, edges))
    {
      hide TakeAddresses, WellFormed;
      var addresses := Mesh.Prefix(reported, MAX_REPORTED);
      TakeNoAddress(devices, addresses);
      for i := 0 to |addresses|
        invariant devices == TakeAddresses(old(devices), addresses[..i])
      {
        var a := addresses[i];
        TakeOneMoreAddress(old(devices), addresses, i);
        if a != "" {
          var id := "zigbee:" + a;
          var d := if id in devices then devices[id] else NEW_DEVICE;
          devices := devices[id := d.(network := "zigbee")];
        }
      }
      assert addresses[..|addresses|] == addresses;
      NoEmptyAddress(addresses);
      if old(WellFormed(devices, edges)) {
        ParentsUnchangedKeepsGraph(old(devices), devices, edges);
      }
    }

    /** The Zigbee bridge's link list replaces the Zigbee edges; a link to an unknown
        device, or from a device to itself, is dropped. */
    method IngestZigbeeMesh(reported: seq<(string, string)>)
      modifies this`edges
      ensures edges == KeepOrigin(old(edges), Zigbee) + ZigbeeEdges(devices, if |reported| <= 10000 then reported else reported[..10000])
      ensures old(WellFormed(devices, edges)) ==> WellFormed(devices, edges)
    {
      var links := Mesh.Prefix(reported, MAX_LINKS);
      var added: seq<Edge> := [];
      for i := 0 to |links|
        invariant added == ZigbeeEdges(devices, links[..i]) && edges == old(edges)
      {
        assert links[..i + 1][..i] == links[..i];
        var source, target := "zigbee:" + links[i].0, "zigbee:" + links[i].1;
        if source in devices && target in devices && source != target {
          added := added + [Edge(source, target, Zigbee, "")];
        }
      }
      assert links[..|links|] == links;
      if WellFormed(devices, edges) {
        ReplacingReportedKeepsGraph(devices, edges, Zigbee, added);
      }
      edges := KeepOrigin(edges, Zigbee) + added;
    }
  }
}
