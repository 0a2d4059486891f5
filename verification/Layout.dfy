/**
 The network map's groups: which group a device belongs to, and the order in which a
 group lists its members. Coordinates are reals; widths are rounded down to whole numbers.
 */
module Layout {
  import opened Common

  /******* Devices, edges and groups *******/

  datatype GroupKey = GatewayKey | Lan | Wlan | Zigbee | Unknown

  datatype Kind = Coordinator | Router | OtherKind

  datatype Point = Point(x: real, y: real)

  /** `saved` holds the user's coordinates when both are finite numbers. */
  datatype Device = Device(
    id: string,
    gateway: bool,
    namedFritzBox: bool,
    onZigbee: bool,
    connection: Option<Medium>,
    kind: Kind,
    layoutGroup: Option<GroupKey>,
    saved: Option<Point>)

  datatype Medium = OverLan | OverWlan | OverUnknown

  datatype Edge = Edge(source: string, target: string, medium: Option<Medium>)

  const CARD_WIDTH := 210.0
  const CARD_HEIGHT := 96.0

  ghost predicate DistinctIds(devices: seq<Device>) {
    forall i, j :: 0 <= i < j < |devices| ==> devices[i].id != devices[j].id
  }

  function Ids(devices: seq<Device>): (ids: seq<string>)
    ensures |ids| == |devices|
    ensures forall i :: 0 <= i < |ids| ==> ids[i] == devices[i].id
  {
    seq(|devices|, i requires 0 <= i < |devices| => devices[i].id)
  }

  function FirstWhere(devices: seq<Device>, p: Device -> bool): (found: Option<Device>)
    ensures found.Some? ==> found.value in devices && p(found.value)
    ensures found.None? ==> forall d :: d in devices ==> !p(d)
  {
    if devices == [] then None
    else if p(devices[0]) then Some(devices[0])
    else FirstWhere(devices[1..], p)
  }

  function Where(devices: seq<Device>, p: Device -> bool): (found: seq<Device>)
    ensures forall d :: d in found <==> d in devices && p(d)
    ensures |found| <= |devices|
  {
    if devices == [] then []
    else (if p(devices[0]) then [devices[0]] else []) + Where(devices[1..], p)
  }

  /** A declared gateway wins; otherwise the first device that names itself a FRITZ!Box. */
  function Gateway(devices: seq<Device>): (found: Option<Device>)
    ensures found.Some? ==> found.value in devices
  {
    var declared := FirstWhere(devices, (d: Device) => d.gateway);
    if declared.Some? then declared else FirstWhere(devices, (d: Device) => d.namedFritzBox)
  }

  /** The medium of the last LAN or WLAN edge that ends at `id`. */
  function EdgeMedium(edges: seq<Edge>, id: string): Option<Medium> {
    if edges == [] then None
    else
      var e := edges[|edges| - 1];
      if e.target == id && (e.medium == Some(OverLan) || e.medium == Some(OverWlan)) then e.medium
      else EdgeMedium(edges[..|edges| - 1], id)
  }

  function KeyOfMedium(m: Medium): GroupKey {
    match m
    case OverLan => Lan
    case OverWlan => Wlan
    case OverUnknown => Unknown
  }

  function GroupOf(devices: seq<Device>, edges: seq<Edge>, d: Device): GroupKey {
    if Gateway(devices).Some? && d.id == Gateway(devices).value.id then GatewayKey
    else if d.onZigbee then Zigbee
    else if d.connection.Some? then KeyOfMedium(d.connection.value)
    else if EdgeMedium(edges, d.id).Some? then KeyOfMedium(EdgeMedium(edges, d.id).value)
    else Unknown
  }

  function Members(devices: seq<Device>, edges: seq<Edge>, key: GroupKey): (members: seq<Device>)
    ensures forall d :: d in members <==> d in devices && GroupOf(devices, edges, d) == key
  {
    Where(devices, (d: Device) => GroupOf(devices, edges, d) == key)
  }

  lemma {:induction false} WhereKeepsDistinctIds(devices: seq<Device>, p: Device -> bool)
    requires DistinctIds(devices)
    ensures DistinctIds(Where(devices, p))
  {
    if devices == [] {
    } else {
      WhereKeepsDistinctIds(devices[1..], p);
      var rest := Where(devices[1..], p);
      forall d | d in rest
        ensures d.id != devices[0].id
      {
        assert d in devices[1..];
      }
    }
  }

  /******* Where devices belong *******/

  /** The first declared gateway or, with none declared, the first device that names itself a FRITZ!Box. */
  ghost predicate GatewayAt(devices: seq<Device>, i: int) {
    && 0 <= i < |devices|
    && if devices[i].gateway then forall j :: 0 <= j < i ==> !devices[j].gateway
       else devices[i].namedFritzBox && (forall d :: d in devices ==> !d.gateway)
            && forall j :: 0 <= j < i ==> !devices[j].namedFritzBox
  }

  ghost predicate IsGateway(devices: seq<Device>, id: string) {
    exists i :: GatewayAt(devices, i) && devices[i].id == id
  }

  predicate WiredInto(e: Edge, id: string) {
    e.target == id && (e.medium == Some(OverLan) || e.medium == Some(OverWlan))
  }

  /** The last LAN or WLAN edge into `id` is over `m`. */
  ghost predicate LastWire(edges: seq<Edge>, id: string, m: Medium) {
    exists k :: 0 <= k < |edges| && WiredInto(edges[k], id) && edges[k].medium == Some(m)
                && forall j :: k < j < |edges| ==> !WiredInto(edges[j], id)
  }

  /** By its own connection or, having none, by the last edge into it. */
  ghost predicate ConnectedOver(edges: seq<Edge>, d: Device, m: Medium) {
    d.connection == Some(m) || (d.connection == None && LastWire(edges, d.id, m))
  }

  /** The gateway is in no group; Zigbee devices are in theirs, others in that of their medium. */
  ghost predicate Belongs(devices: seq<Device>, edges: seq<Edge>, d: Device, key: GroupKey) {
    && !IsGateway(devices, d.id)
    && match key
       case GatewayKey => false
       case Zigbee => d.onZigbee
       case Lan => !d.onZigbee && ConnectedOver(edges, d, OverLan)
       case Wlan => !d.onZigbee && ConnectedOver(edges, d, OverWlan)
       case Unknown => !d.onZigbee && !ConnectedOver(edges, d, OverLan) && !ConnectedOver(edges, d, OverWlan)
  }

  lemma FirstWhereIsFirst(devices: seq<Device>, p: Device -> bool) returns (i: nat)
    requires FirstWhere(devices, p).Some?
    ensures i < |devices| && devices[i] == FirstWhere(devices, p).value && p(devices[i])
    ensures forall j :: 0 <= j < i ==> !p(devices[j])
  {
    if p(devices[0]) {
      i := 0;
    } else {
      var rest := FirstWhereIsFirst(devices[1..], p);
      i := rest + 1;
      assert forall j :: 0 < j < i ==> devices[j] == devices[1..][j - 1];
    }
  }

  lemma GatewayIsGateway(devices: seq<Device>, id: string)
    requires DistinctIds(devices)
    ensures IsGateway(devices, id) <==> Gateway(devices).Some? && Gateway(devices).value.id == id
  {
    var declared, named := (d: Device) => d.gateway, (d: Device) => d.namedFritzBox;
    if Gateway(devices).Some? {
      var i: nat;
      if FirstWhere(devices, declared).Some? {
        i := FirstWhereIsFirst(devices, declared);
      } else {
        i := FirstWhereIsFirst(devices, named);
      }
      assert GatewayAt(devices, i) && devices[i] == Gateway(devices).value;
    }
    if k :| GatewayAt(devices, k) && devices[k].id == id {
      assert devices[k] in devices;
      OneGateway(devices, k);
    }
  }

  lemma OneGateway(devices: seq<Device>, k: int)
    requires GatewayAt(devices, k)
    ensures Gateway(devices) == Some(devices[k])
  {
    var declared, named := (d: Device) => d.gateway, (d: Device) => d.namedFritzBox;
    assert devices[k] in devices;
    if devices[k].gateway {
      var i := FirstWhereIsFirst(devices, declared);
      assert i == k;
    } else {
      assert FirstWhere(devices, declared).None?;
      var i := FirstWhereIsFirst(devices, named);
      assert i == k;
    }
  }

  lemma {:induction false} EdgeMediumIsLast(edges: seq<Edge>, id: string)
    ensures EdgeMedium(edges, id) == Some(OverLan) <==> LastWire(edges, id, OverLan)
    ensures EdgeMedium(edges, id) == Some(OverWlan) <==> LastWire(edges, id, OverWlan)
    ensures EdgeMedium(edges, id).Some? ==> EdgeMedium(edges, id).value != OverUnknown
  {
    if edges != [] {
      var front, last := edges[..|edges| - 1], edges[|edges| - 1];
      EdgeMediumIsLast(front, id);
      assert edges == front + [last];
      LastWireOfOneMore(front, last, id, OverLan);
      LastWireOfOneMore(front, last, id, OverWlan);
      hide LastWire;
    }
  }

  lemma LastWireOfOneMore(front: seq<Edge>, last: Edge, id: string, m: Medium)
    ensures LastWire(front + [last], id, m) <==> if WiredInto(last, id) then last.medium == Some(m) else LastWire(front, id, m)
  {
    var edges := front + [last];
    assert edges[|front|] == last && forall k :: 0 <= k < |front| ==> edges[k] == front[k];
    if WiredInto(last, id) && last.medium == Some(m) {
      assert WiredInto(edges[|front|], id);
    }
    if LastWire(front, id, m) {
      var k :| 0 <= k < |front| && WiredInto(front[k], id) && front[k].medium == Some(m)
               && forall j :: k < j < |front| ==> !WiredInto(front[j], id);
      assert WiredInto(edges[k], id);
    }
  }

  lemma OneLastWire(edges: seq<Edge>, id: string)
    ensures !(LastWire(edges, id, OverLan) && LastWire(edges, id, OverWlan))
  {
  }

  /** The group a device is put in is the one it belongs to. */
  lemma GroupsAreBelonging(devices: seq<Device>, edges: seq<Edge>, d: Device, key: GroupKey)
    requires DistinctIds(devices)
    ensures key != GatewayKey ==> (GroupOf(devices, edges, d) == key <==> Belongs(devices, edges, d, key))
  {
    GatewayIsGateway(devices, d.id);
    EdgeMediumIsLast(edges, d.id);
    OneLastWire(edges, d.id);
    hide Gateway, IsGateway, EdgeMedium, LastWire;
  }

  lemma {:induction false} DistinctDevicesCount(devices: seq<Device>)
    requires DistinctIds(devices)
    ensures |set d | d in devices| == |devices|
  {
    if devices != [] {
      var front, last := devices[..|devices| - 1], devices[|devices| - 1];
      DistinctDevicesCount(front);
      assert (set d | d in devices) == (set d | d in front) + {last};
    }
  }

  /** A group's members are the devices that belong to it. */
  lemma MembersAreBelonging(devices: seq<Device>, edges: seq<Edge>, key: GroupKey)
    requires DistinctIds(devices) && key != GatewayKey
    ensures var members := Members(devices, edges, key);
            && |members| == |set d | d in devices && Belongs(devices, edges, d, key)|
            && (forall d :: d in members <==> d in devices && Belongs(devices, edges, d, key))
            && (forall id :: id in Ids(members) <==> exists d :: d in devices && d.id == id && Belongs(devices, edges, d, key))
            && (members != [] <==> exists d :: d in devices && Belongs(devices, edges, d, key))
  {
    var members := Members(devices, edges, key);
    forall d ensures d in members <==> d in devices && Belongs(devices, edges, d, key) {
      GroupsAreBelonging(devices, edges, d, key);
    }
    WhereKeepsDistinctIds(devices, (d: Device) => GroupOf(devices, edges, d) == key);
    DistinctDevicesCount(members);
    IdsOfMembers(members);
    hide Members, Belongs, Ids, DistinctIds;
    assert (set d | d in members) == set d | d in devices && Belongs(devices, edges, d, key);
    assert members != [] ==> members[0] in members;
  }

  lemma IdsOfMembers(members: seq<Device>)
    ensures forall id :: id in Ids(members) <==> exists d :: d in members && d.id == id
  {
    forall d | d in members ensures d.id in Ids(members) { IdIn(members, d); }
  }

  /** Those found are listed in the devices' order. */
  ghost predicate ListedInOrder(devices: seq<Device>, listed: seq<Device>) {
    forall i, j, a, b ::
      (0 <= i < j < |listed| && 0 <= a < |devices| && 0 <= b < |devices| && devices[a] == listed[i] && devices[b] == listed[j]) ==>
        a < b
  }

  lemma {:induction false} WhereKeepsOrder(devices: seq<Device>, p: Device -> bool)
    requires DistinctIds(devices)
    ensures ListedInOrder(devices, Where(devices, p))
  {
    if devices != [] {
      var found, rest := Where(devices, p), Where(devices[1..], p);
      WhereKeepsOrder(devices[1..], p);
      forall i, j, a, b | 0 <= i < j < |found| && 0 <= a < |devices| && 0 <= b < |devices|
                          && devices[a] == found[i] && devices[b] == found[j]
        ensures a < b
      {
        OrderInTail(devices, found, rest, i, j, a, b);
      }
    }
  }

  lemma OrderInTail(devices: seq<Device>, found: seq<Device>, rest: seq<Device>, i: nat, j: nat, a: nat, b: nat)
    requires DistinctIds(devices) && i < j < |found| && a < |devices| && b < |devices|
    requires devices[a] == found[i] && devices[b] == found[j]
    requires ListedInOrder(devices[1..], rest) && (forall d :: d in rest ==> d in devices[1..])
    requires found == [devices[0]] + rest || found == rest
    ensures a < b
  {
    var shift := |found| - |rest|;
    assert found[j] == rest[j - shift] && rest[j - shift] in devices[1..];
    assert b > 0 && devices[1..][b - 1] == devices[b];
    if i >= shift {
      assert found[i] == rest[i - shift] && rest[i - shift] in devices[1..];
      assert a > 0 && devices[1..][a - 1] == devices[a];
    }
  }

  lemma IdIn(members: seq<Device>, d: Device)
    requires d in members
    ensures d.id in Ids(members)
  {
  }

  lemma SameIdSameDevice(members: seq<Device>, a: Device, b: Device)
    requires DistinctIds(members) && a in members && b in members && a.id == b.id
    ensures a == b
  {
  }
}
