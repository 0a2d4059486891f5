/**
 Reading a FRITZ! mesh report: which devices it names, which undirected links it
 keeps, how far each device is from a gateway, and which way each link points.
 MAC normalisation, XML and HTTP are outside the model: a node arrives with its
 normalised address, or the empty string when it has none.
 */
module Mesh {
  import opened Common

  datatype Medium = OverLan | OverWlan | OverUnknown

  datatype Link = Link(uid1: string, uid2: string, active: bool, medium: Medium)

  datatype Node = Node(uid: string, mac: string, links: seq<Link>)

  /** A device already on the map, and a row of the FRITZ!Box host list. */
  datatype Known = Known(id: string, mac: string, ip: Option<string>)
  datatype Host = Host(mac: string, ip: string)

  datatype Device = Device(id: string, mac: string, ip: string, gateway: bool, connection: Option<Medium>)

  datatype Edge = Edge(source: string, target: string, medium: Medium)

  const MAX_NODES := 2000
  const MAX_LINKS := 10000

  function Prefix<T>(s: seq<T>, n: nat): seq<T> {
    if |s| <= n then s else s[..n]
  }

  /******* Devices *******/

  /** The last row with this address wins, as when a dictionary is filled in order. */
  function KnownFor(existing: seq<Known>, mac: string): (found: Option<Known>)
    ensures found.Some? ==> found.value in existing && found.value.mac == mac
  {
    if existing == [] then None
    else if existing[|existing| - 1].mac == mac then Some(existing[|existing| - 1])
    else KnownFor(existing[..|existing| - 1], mac)
  }

  function HostIp(hosts: seq<Host>, mac: string): string {
    if hosts == [] then ""
    else if hosts[|hosts| - 1].mac == mac then hosts[|hosts| - 1].ip
    else HostIp(hosts[..|hosts| - 1], mac)
  }

  predicate Usable(n: Node) { n.mac != "" && n.uid != "" }

  function DeviceOf(n: Node, hosts: seq<Host>, existing: seq<Known>, gatewayIp: Option<string>): (d: Device)
    ensures d.id != ""
  {
    var known := KnownFor(existing, n.mac);
    var ip := if HostIp(hosts, n.mac) != "" then Some(HostIp(hosts, n.mac))
              else if known.Some? then known.value.ip else None;
    Device(if known.Some? && known.value.id != "" then known.value.id else "lan:" + n.mac,
           n.mac, if ip.Some? then ip.value else "", ip == gatewayIp, None)
  }

  /** The row a device id stands for: the last one, where an id repeats. */
  function Row(devices: seq<Device>, id: string): (row: nat)
    requires exists d :: d in devices && d.id == id
    ensures row < |devices| && devices[row].id == id
    ensures forall k :: row < k < |devices| ==> devices[k].id != id
  {
    var n := |devices| - 1;
    if devices[n].id == id then n
    else
      var d :| d in devices && d.id == id;
      assert d in devices[..n];
      Row(devices[..n], id)
  }

  ghost predicate Named(devices: seq<Device>, id: string) {
    exists d :: d in devices && d.id == id
  }

  /******* What the rows mean *******/

  /** The last known device with this address. */
  ghost predicate LastKnown(existing: seq<Known>, mac: string, known: Option<Known>) {
    match known
    case None => forall k :: k in existing ==> k.mac != mac
    case Some(k) => exists i :: 0 <= i < |existing| && existing[i] == k && k.mac == mac
                                && forall j :: i < j < |existing| ==> existing[j].mac != mac
  }

  /** The address in the last row of the host list for `mac`, empty where there is none. */
  ghost predicate LastHost(hosts: seq<Host>, mac: string, ip: string) {
    || (ip == "" && forall h :: h in hosts ==> h.mac != mac)
    || (exists i :: 0 <= i < |hosts| && hosts[i].mac == mac && hosts[i].ip == ip
                    && forall j :: i < j < |hosts| ==> hosts[j].mac != mac)
  }

  /** The row of a node: its own address; the known device's id where there is one, else one made of the
      address; the host list's IP, else the known device's; a gateway exactly when that is the gateway's. */
  ghost predicate RowOf(n: Node, hosts: seq<Host>, existing: seq<Known>, gatewayIp: Option<string>, d: Device) {
    exists known, host :: LastKnown(existing, n.mac, known) && LastHost(hosts, n.mac, host)
                          && Describes(known, host, n.mac, gatewayIp, d)
  }

  ghost predicate Describes(known: Option<Known>, host: string, mac: string, gatewayIp: Option<string>, d: Device) {
    && d.mac == mac
    && d.id == (if known.Some? && known.value.id != "" then known.value.id else "lan:" + mac)
    && var ip := if host != "" then Some(host) else if known.Some? then known.value.ip else None;
       d.ip == (if ip.Some? then ip.value else "") && (d.gateway <==> ip == gatewayIp)
  }

  /** The nodes with an address and an id, in order. */
  ghost function Answering(nodes: seq<Node>): seq<Node> {
    if nodes == [] then []
    else (if nodes[0].mac != "" && nodes[0].uid != "" then [nodes[0]] else []) + Answering(nodes[1..])
  }

  /** The links nodes list, node by node. */
  ghost function Listed(nodes: seq<Node>): seq<Link> {
    if nodes == [] then [] else nodes[0].links + Listed(nodes[1..])
  }

  /** Row `i` is that of the `i`-th answering node. */
  ghost predicate RowsRead(nodes: seq<Node>, hosts: seq<Host>, existing: seq<Known>, gatewayIp: Option<string>, rows: seq<Device>) {
    |rows| == |nodes| && forall i :: 0 <= i < |rows| ==> RowOf(nodes[i], hosts, existing, gatewayIp, rows[i])
  }

  /** The device behind a node id is that of the last node with it. */
  ghost predicate Behind(nodes: seq<Node>, rows: seq<Device>, uid: string, id: string) {
    exists i :: 0 <= i < |nodes| && i < |rows| && nodes[i].uid == uid && rows[i].id == id
                && forall j :: i < j < |nodes| ==> nodes[j].uid != uid
  }

  ghost predicate IdentitiesRead(nodes: seq<Node>, rows: seq<Device>, identities: map<string, string>) {
    && (forall uid :: uid in identities ==> Behind(nodes, rows, uid, identities[uid]))
    && (forall n :: n in nodes ==> n.uid in identities)
  }

  lemma {:induction false} KnownForIsLast(existing: seq<Known>, mac: string)
    ensures LastKnown(existing, mac, KnownFor(existing, mac))
  {
    if existing != [] && existing[|existing| - 1].mac != mac {
      var front := existing[..|existing| - 1];
      KnownForIsLast(front, mac);
      assert existing == front + [existing[|existing| - 1]];
      if KnownFor(front, mac).Some? {
        var k := KnownFor(front, mac).value;
        var i :| 0 <= i < |front| && front[i] == k && forall j :: i < j < |front| ==> front[j].mac != mac;
        assert existing[i] == k;
      }
    }
  }

  lemma {:induction false} HostIpIsLast(hosts: seq<Host>, mac: string)
    ensures LastHost(hosts, mac, HostIp(hosts, mac))
  {
    if hosts != [] && hosts[|hosts| - 1].mac != mac {
      var front := hosts[..|hosts| - 1];
      HostIpIsLast(front, mac);
      assert hosts == front + [hosts[|hosts| - 1]];
      if i :| 0 <= i < |front| && front[i].mac == mac && front[i].ip == HostIp(front, mac)
              && forall j :: i < j < |front| ==> front[j].mac != mac {
        assert hosts[i].mac == mac;
      }
    }
  }

  lemma DeviceOfIsRow(n: Node, hosts: seq<Host>, existing: seq<Known>, gatewayIp: Option<string>)
    ensures RowOf(n, hosts, existing, gatewayIp, DeviceOf(n, hosts, existing, gatewayIp))
  {
    KnownForIsLast(existing, n.mac);
    HostIpIsLast(hosts, n.mac);
    hide LastKnown, LastHost;
    assert Describes(KnownFor(existing, n.mac), HostIp(hosts, n.mac), n.mac, gatewayIp, DeviceOf(n, hosts, existing, gatewayIp));
  }

  lemma {:induction false} AnsweringAppend(nodes: seq<Node>, n: Node)
    ensures Answering(nodes + [n]) == if n.mac != "" && n.uid != "" then Answering(nodes) + [n] else Answering(nodes)
  {
    if nodes == [] {
      assert [] + [n] == [n] && [n][1..] == [];
    } else {
      AnsweringAppend(nodes[1..], n);
      assert (nodes + [n])[1..] == nodes[1..] + [n];
    }
  }

  lemma {:induction false} ListedAppend(nodes: seq<Node>, n: Node)
    ensures Listed(nodes + [n]) == Listed(nodes) + n.links
  {
    if nodes == [] {
      assert [] + [n] == [n] && [n][1..] == [];
    } else {
      ListedAppend(nodes[1..], n);
      assert (nodes + [n])[1..] == nodes[1..] + [n];
    }
  }

  /** What reading nodes one by one comes to. */
  lemma {:induction false} NodesAreRead(nodes: seq<Node>, hosts: seq<Host>, existing: seq<Known>, gatewayIp: Option<string>)
    ensures var rows := Rows(nodes, hosts, existing, gatewayIp);
            && RowsRead(Answering(nodes), hosts, existing, gatewayIp, rows)
            && IdentitiesRead(Answering(nodes), rows, Identities(nodes, hosts, existing, gatewayIp))
            && RawLinks(nodes) == Listed(Answering(nodes))
  {
    hide *;
    if nodes == [] {
      NoRowsRead(hosts, existing, gatewayIp);
    } else {
      var front, n := nodes[..|nodes| - 1], nodes[|nodes| - 1];
      var rows, d := Rows(front, hosts, existing, gatewayIp), DeviceOf(n, hosts, existing, gatewayIp);
      assert nodes == front + [n];
      NodesAreRead(front, hosts, existing, gatewayIp);
      AnsweringAppend(front, n);
      OneMoreNode(front, n, hosts, existing, gatewayIp);
      UsableMeans(n);
      ListedAppend(Answering(front), n);
      DeviceOfIsRow(n, hosts, existing, gatewayIp);
      OneMoreRow(Answering(front), hosts, existing, gatewayIp, rows, n, d);
      OneMoreIdentity(Answering(front), rows, Identities(front, hosts, existing, gatewayIp), n, d);
    }
  }

  lemma NoRowsRead(hosts: seq<Host>, existing: seq<Known>, gatewayIp: Option<string>)
    ensures RowsRead(Answering([]), hosts, existing, gatewayIp, Rows([], hosts, existing, gatewayIp))
    ensures IdentitiesRead(Answering([]), Rows([], hosts, existing, gatewayIp), Identities([], hosts, existing, gatewayIp))
    ensures RawLinks([]) == Listed(Answering([]))
  {
  }

  lemma UsableMeans(n: Node)
    ensures Usable(n) <==> n.mac != "" && n.uid != ""
  {
  }

  lemma OneMoreRow(nodes: seq<Node>, hosts: seq<Host>, existing: seq<Known>, gatewayIp: Option<string>, rows: seq<Device>,
                   n: Node, d: Device)
    requires RowsRead(nodes, hosts, existing, gatewayIp, rows) && RowOf(n, hosts, existing, gatewayIp, d)
    ensures RowsRead(nodes + [n], hosts, existing, gatewayIp, rows + [d]) && |rows| == |nodes|
  {
    hide RowOf;
  }

  lemma OneMoreIdentity(nodes: seq<Node>, rows: seq<Device>, identities: map<string, string>, n: Node, d: Device)
    requires |rows| == |nodes| && IdentitiesRead(nodes, rows, identities)
    ensures IdentitiesRead(nodes + [n], rows + [d], identities[n.uid := d.id])
  {
    var ns, rs, ids := nodes + [n], rows + [d], identities[n.uid := d.id];
    assert ns[|nodes|] == n && rs[|nodes|] == d;
    forall uid | uid in ids ensures Behind(ns, rs, uid, ids[uid]) {
      if uid != n.uid {
        var i :| 0 <= i < |nodes| && nodes[i].uid == uid && rows[i].id == identities[uid]
                 && forall j :: i < j < |nodes| ==> nodes[j].uid != uid;
        assert ns[i] == nodes[i] && rs[i] == rows[i];
      }
    }
  }

  /******* Undirected structure *******/

  predicate Joins(e: Edge, a: string, b: string) {
    (e.source == a && e.target == b) || (e.source == b && e.target == a)
  }

  ghost predicate Linked(edges: seq<Edge>, a: string, b: string) {
    exists e :: e in edges && Joins(e, a, b)
  }

  /** A link the report vouches for, between two different named devices. */
  predicate Accepted(identities: map<string, string>, link: Link, a: string, b: string) {
    && link.active && link.uid1 in identities && link.uid2 in identities && a != b
    && ((identities[link.uid1] == a && identities[link.uid2] == b) || (identities[link.uid1] == b && identities[link.uid2] == a))
  }

  /** The medium of the first link that joins `a` and `b`. */
  function FirstMedium(identities: map<string, string>, links: seq<Link>, a: string, b: string): (m: Option<Medium>)
    ensures m.Some? <==> exists link :: link in links && Accepted(identities, link, a, b)
  {
    if links == [] then None
    else if Accepted(identities, links[0], a, b) then Some(links[0].medium)
    else FirstMedium(identities, links[1..], a, b)
  }

  lemma {:induction false} FirstMediumAppend(identities: map<string, string>, links: seq<Link>, link: Link, a: string, b: string)
    ensures FirstMedium(identities, links + [link], a, b) ==
            if FirstMedium(identities, links, a, b).Some? then FirstMedium(identities, links, a, b)
            else if Accepted(identities, link, a, b) then Some(link.medium) else None
  {
    if links == [] {
      assert [] + [link] == [link];
    } else {
      FirstMediumAppend(identities, links[1..], link, a, b);
      assert (links + [link])[1..] == links[1..] + [link];
    }
  }

  /** One edge per joined pair, none from a device to itself, carrying its first link's medium. */
  ghost predicate Collected(identities: map<string, string>, links: seq<Link>, edges: seq<Edge>) {
    && (forall e :: e in edges ==>
          e.source != e.target && FirstMedium(identities, links, e.source, e.target) == Some(e.medium))
    && (forall i, j :: 0 <= i < j < |edges| ==> !Joins(edges[j], edges[i].source, edges[i].target))
    && (forall a, b :: FirstMedium(identities, links, a, b).Some? ==> Linked(edges, a, b))
  }

  lemma FirstMediumSymmetric(identities: map<string, string>, links: seq<Link>, a: string, b: string)
    ensures FirstMedium(identities, links, a, b) == FirstMedium(identities, links, b, a)
  {
  }

  /** Turn the accepted links into edges, a link between a gateway and another device
      pointing away from the device listed second when that one is a gateway. */
  method CollectEdges(identities: map<string, string>, links: seq<Link>, devices: seq<Device>)
    returns (edges: seq<Edge>, ghost from: seq<nat>)
    requires forall uid :: uid in identities ==> Named(devices, identities[uid])
    ensures Collected(identities, links, edges) && Origins(identities, links, devices, edges, from)
    ensures forall e :: e in edges ==> Named(devices, e.source) && Named(devices, e.target)
  {
    edges, from := [], [];
    var seen: set<set<string>> := {};
    NothingCollected(identities, links, devices);
    hide Collected, Origins, FirstMedium, Linked, GatewayRow, Row;
    for i := 0 to |links|
      invariant Collected(identities, links[..i], edges) && Origins(identities, links[..i], devices, edges, from)
      invariant forall e :: e in edges ==> Named(devices, e.source) && Named(devices, e.target)
      invariant forall a, b :: {a, b} in seen <==> Linked(edges, a, b)
    {
      var link := links[i];
      assert links[..i + 1] == links[..i] + [link];
      if link.active && link.uid1 in identities && link.uid2 in identities && identities[link.uid1] != identities[link.uid2] {
        var a, b := identities[link.uid1], identities[link.uid2];
        if {a, b} !in seen {
          assert Named(devices, a) && Named(devices, b);
          var e := if devices[Row(devices, b)].gateway then Edge(b, a, link.medium) else Edge(a, b, link.medium);
          RowIsGateway(devices, b);
          assert {b, a} == {a, b} && {b, a} !in seen;
          CollectNew(identities, links[..i], link, edges, e, seen);
          OneMoreOrigin(identities, links[..i], link, devices, edges, from, e);
          seen := seen + {{a, b}};
          edges, from := edges + [e], from + [i];
          assert |links[..i]| == i;
        } else {
          CollectSeen(identities, links[..i], link, edges, a, b);
          SameOrigins(identities, links[..i], link, devices, edges, from);
        }
      } else {
        CollectIgnored(identities, links[..i], link, edges);
        SameOrigins(identities, links[..i], link, devices, edges, from);
      }
    }
    assert links[..|links|] == links;
  }

  lemma NothingCollected(identities: map<string, string>, links: seq<Link>, devices: seq<Device>)
    ensures links[..0] == [] && Collected(identities, [], []) && Origins(identities, [], devices, [], [])
    ensures forall a, b :: !Linked([], a, b)
  {
  }

  /** The last row with this id is a gateway's. */
  ghost predicate GatewayRow(devices: seq<Device>, id: string) {
    exists r :: 0 <= r < |devices| && devices[r].id == id && devices[r].gateway
                && forall k :: r < k < |devices| ==> devices[k].id != id
  }

  lemma RowIsGateway(devices: seq<Device>, id: string)
    requires Named(devices, id)
    ensures GatewayRow(devices, id) <==> devices[Row(devices, id)].gateway
  {
    var row := Row(devices, id);
    if GatewayRow(devices, id) {
      var r :| 0 <= r < |devices| && devices[r].id == id && devices[r].gateway
               && forall k :: r < k < |devices| ==> devices[k].id != id;
      assert r == row;
    }
  }

  /** The edge a link is drawn as, from one device to another, a gateway listed second coming first. */
  ghost predicate DrawnAs(identities: map<string, string>, devices: seq<Device>, link: Link, e: Edge) {
    && link.active && link.uid1 in identities && link.uid2 in identities
    && var a, b := identities[link.uid1], identities[link.uid2];
       a != b && e == if GatewayRow(devices, b) then Edge(b, a, link.medium) else Edge(a, b, link.medium)
  }

  /** Each edge is drawn from a link of its own, in the links' order, the first to join its pair. */
  ghost predicate Origins(identities: map<string, string>, links: seq<Link>, devices: seq<Device>, edges: seq<Edge>, from: seq<nat>) {
    && |from| == |edges|
    && (forall k :: 0 <= k < |from| ==> from[k] < |links| && DrawnAs(identities, devices, links[from[k]], edges[k]))
    && (forall j, k :: 0 <= j < k < |from| ==> from[j] < from[k])
    && (forall k, i :: 0 <= k < |from| && 0 <= i < from[k] ==> !Accepted(identities, links[i], edges[k].source, edges[k].target))
  }

  lemma SameOrigins(identities: map<string, string>, links: seq<Link>, link: Link, devices: seq<Device>, edges: seq<Edge>, from: seq<nat>)
    requires Origins(identities, links, devices, edges, from)
    ensures Origins(identities, links + [link], devices, edges, from)
  {
    hide DrawnAs, Accepted;
  }

  lemma OneMoreOrigin(identities: map<string, string>, links: seq<Link>, link: Link, devices: seq<Device>, edges: seq<Edge>, from: seq<nat>,
                      e: Edge)
    requires Origins(identities, links, devices, edges, from) && DrawnAs(identities, devices, link, e)
    requires forall l :: l in links ==> !Accepted(identities, l, e.source, e.target)
    ensures Origins(identities, links + [link], devices, edges + [e], from + [|links|])
  {
    hide DrawnAs, Accepted;
  }

  lemma CollectIgnored(identities: map<string, string>, links: seq<Link>, link: Link, edges: seq<Edge>)
    requires Collected(identities, links, edges)
    requires forall a, b :: !Accepted(identities, link, a, b)
    ensures Collected(identities, links + [link], edges)
  {
    forall a, b { FirstMediumAppend(identities, links, link, a, b); }
  }

  lemma CollectSeen(identities: map<string, string>, links: seq<Link>, link: Link, edges: seq<Edge>, a: string, b: string)
    requires Collected(identities, links, edges) && Linked(edges, a, b)
    requires Accepted(identities, link, a, b)
    ensures Collected(identities, links + [link], edges)
  {
    forall x, y { FirstMediumAppend(identities, links, link, x, y); }
  }

  lemma CollectNew(identities: map<string, string>, links: seq<Link>, link: Link, edges: seq<Edge>, e: Edge, seen: set<set<string>>)
    requires Collected(identities, links, edges)
    requires Accepted(identities, link, e.source, e.target) && e.medium == link.medium
    requires !Linked(edges, e.source, e.target)
    requires forall a, b :: {a, b} in seen <==> Linked(edges, a, b)
    ensures Collected(identities, links + [link], edges + [e])
    ensures forall a, b :: {a, b} in seen + {{e.source, e.target}} <==> Linked(edges + [e], a, b)
    ensures forall l :: l in links ==> !Accepted(identities, l, e.source, e.target)
  {
    assert FirstMedium(identities, links, e.source, e.target).None?;
    NewEdgeMedia(identities, links, link, edges, e);
    NewEdgeLinks(identities, links, link, edges, e);
    NewEdgeSingle(edges, e);
    NewPairSeen(edges, e, seen);
    hide FirstMedium, Accepted, Linked, Joins;
  }

  lemma NewEdgeMedia(identities: map<string, string>, links: seq<Link>, link: Link, edges: seq<Edge>, e: Edge)
    requires Collected(identities, links, edges) && !Linked(edges, e.source, e.target)
    requires Accepted(identities, link, e.source, e.target) && e.medium == link.medium
    ensures forall x :: x in edges + [e] ==>
              x.source != x.target && FirstMedium(identities, links + [link], x.source, x.target) == Some(x.medium)
  {
    assert FirstMedium(identities, links, e.source, e.target).None?;
    hide FirstMedium, Linked, Joins;
    forall x | x in edges + [e]
      ensures x.source != x.target && FirstMedium(identities, links + [link], x.source, x.target) == Some(x.medium)
    {
      FirstMediumAppend(identities, links, link, x.source, x.target);
    }
  }

  lemma NewEdgeLinks(identities: map<string, string>, links: seq<Link>, link: Link, edges: seq<Edge>, e: Edge)
    requires Accepted(identities, link, e.source, e.target)
    requires forall a, b :: FirstMedium(identities, links, a, b).Some? ==> Linked(edges, a, b)
    ensures forall a, b :: FirstMedium(identities, links + [link], a, b).Some? ==> Linked(edges + [e], a, b)
  {
    hide FirstMedium, Linked;
    forall a, b | FirstMedium(identities, links + [link], a, b).Some?
      ensures Linked(edges + [e], a, b)
    {
      FirstMediumAppend(identities, links, link, a, b);
      LinkedGrows(edges, e, a, b);
    }
  }

  lemma NewEdgeSingle(edges: seq<Edge>, e: Edge)
    requires forall i, j :: 0 <= i < j < |edges| ==> !Joins(edges[j], edges[i].source, edges[i].target)
    requires !Linked(edges, e.source, e.target)
    ensures forall i, j :: 0 <= i < j < |edges + [e]| ==> !Joins((edges + [e])[j], (edges + [e])[i].source, (edges + [e])[i].target)
  {
    forall i | 0 <= i < |edges|
      ensures !Joins(e, edges[i].source, edges[i].target)
    {
      assert edges[i] in edges && !Joins(edges[i], e.source, e.target);
    }
  }

  lemma NewPairSeen(edges: seq<Edge>, e: Edge, seen: set<set<string>>)
    requires forall a, b :: {a, b} in seen <==> Linked(edges, a, b)
    ensures forall a, b :: {a, b} in seen + {{e.source, e.target}} <==> Linked(edges + [e], a, b)
  {
    hide Linked, Joins;
    forall a, b
      ensures {a, b} in seen + {{e.source, e.target}} <==> Linked(edges + [e], a, b)
    {
      LinkedGrows(edges, e, a, b);
      PairIsUnordered(e, a, b);
    }
  }

  lemma PairIsUnordered(e: Edge, a: string, b: string)
    ensures {a, b} == {e.source, e.target} <==> Joins(e, a, b)
  {
  }

  lemma LinkedGrows(edges: seq<Edge>, e: Edge, a: string, b: string)
    ensures Linked(edges + [e], a, b) <==> Linked(edges, a, b) || Joins(e, a, b)
  {
  }

  /******* Hop distance *******/

  function Elements(ids: seq<string>): (all: set<string>)
    ensures forall x :: x in all <==> x in ids
  {
    set x | x in ids
  }

  /** Some walk of exactly `k` links leads from a source to `x`. */
  ghost predicate Hops(edges: seq<Edge>, sources: set<string>, x: string, k: nat)
    decreases k
  {
    if k == 0 then x in sources
    else exists y :: Hops(edges, sources, y, k - 1) && Linked(edges, y, x)
  }

  /** `depth` knows exactly the devices some source reaches, at their least hop count. */
  ghost predicate ShortestHops(edges: seq<Edge>, sources: set<string>, depth: map<string, nat>) {
    && (forall x {:trigger Hops(edges, sources, x, depth[x])} :: x in depth ==> Hops(edges, sources, x, depth[x]))
    && (forall x, k: nat :: Hops(edges, sources, x, k) ==> x in depth && depth[x] <= k)
  }

  lemma {:induction false} ClosedIsShortest(edges: seq<Edge>, sources: set<string>, depth: map<string, nat>, x: string, k: nat)
    requires Sound(edges, sources, depth) && DoneClosed(edges, depth, [])
    requires Hops(edges, sources, x, k)
    ensures x in depth && depth[x] <= k
    decreases k
  {
    if k > 0 {
      var y :| Hops(edges, sources, y, k - 1) && Linked(edges, y, x);
      ClosedIsShortest(edges, sources, depth, y, k - 1);
    }
  }

  function Neighbours(edges: seq<Edge>, x: string): (ids: seq<string>)
    ensures forall y :: y in ids <==> Linked(edges, x, y)
  {
    if edges == [] then []
    else
      var n := |edges| - 1;
      var e := edges[n];
      var before := Neighbours(edges[..n], x);
      assert edges == edges[..n] + [e];
      assert forall y :: Linked(edges, x, y) <==> Linked(edges[..n], x, y) || Joins(e, x, y) by {
        forall y { LinkedGrows(edges[..n], e, x, y); }
      }
      before + (if e.source == x then [e.target] else []) + (if e.target == x then [e.source] else [])
  }

  /** The queue holds depths in order, spanning at most two levels, and nothing known
      lies deeper than one below its head. */
  ghost predicate Frontier(depth: map<string, nat>, queue: seq<string>) {
    && (forall x :: x in queue ==> x in depth)
    && (forall i, j :: 0 <= i < j < |queue| ==> depth[queue[i]] <= depth[queue[j]])
    && (queue != [] ==> forall x :: x in depth ==> depth[x] <= depth[queue[0]] + 1)
  }

  ghost predicate Sound(edges: seq<Edge>, sources: set<string>, depth: map<string, nat>) {
    && (forall x :: x in sources ==> x in depth && depth[x] == 0)
    && (forall x {:trigger Hops(edges, sources, x, depth[x])} :: x in depth ==> Hops(edges, sources, x, depth[x]))
  }

  ghost predicate DoneClosed(edges: seq<Edge>, depth: map<string, nat>, waiting: seq<string>) {
    forall x, y :: x in depth && x !in waiting && Linked(edges, x, y) ==> y in depth && depth[y] <= depth[x] + 1
  }

  ghost predicate SearchState(ids: set<string>, edges: seq<Edge>, sources: set<string>, depth: map<string, nat>, queue: seq<string>) {
    && depth.Keys <= ids && Sound(edges, sources, depth)
    && Frontier(depth, queue) && DoneClosed(edges, depth, queue)
  }

  ghost predicate EndsNamed(ids: set<string>, edges: seq<Edge>) {
    forall e :: e in edges ==> e.source in ids && e.target in ids
  }

  ghost function Unreached(ids: set<string>, depth: map<string, nat>): nat {
    |ids - depth.Keys|
  }

  /** Breadth-first search with a list as its queue. */
  method HopDepths(ids: set<string>, edges: seq<Edge>, gateways: seq<string>) returns (depth: map<string, nat>)
    requires EndsNamed(ids, edges)
    requires forall x :: x in gateways ==> x in ids
    ensures ShortestHops(edges, Elements(gateways), depth) && depth.Keys <= ids
  {
    hide *;
    depth := map x | x in gateways :: 0;
    var queue := gateways;
    SearchStarts(ids, edges, gateways, depth);
    while queue != []
      invariant SearchState(ids, edges, Elements(gateways), depth, queue)
      decreases Unreached(ids, depth), |queue|
    {
      assert queue == [queue[0]] + queue[1..];
      depth, queue := Visit(ids, edges, Elements(gateways), depth, queue[0], queue[1..]);
    }
    DoneIsShortest(ids, edges, Elements(gateways), depth);
  }

  lemma SearchStarts(ids: set<string>, edges: seq<Edge>, gateways: seq<string>, depth: map<string, nat>)
    requires forall x :: x in gateways ==> x in ids
    requires depth == map x | x in gateways :: 0
    ensures SearchState(ids, edges, Elements(gateways), depth, gateways)
  {
  }

  lemma SmallerDifference(ids: set<string>, a: set<string>, b: set<string>)
    requires a < b <= ids
    ensures |ids - b| < |ids - a|
  {
    var x :| x in b && x !in a;
    var big := (ids - a) - {x};
    assert ids - b <= big;
    assert big == (ids - b) + (big - (ids - b));
  }

  lemma DoneIsShortest(ids: set<string>, edges: seq<Edge>, sources: set<string>, depth: map<string, nat>)
    requires SearchState(ids, edges, sources, depth, [])
    ensures ShortestHops(edges, sources, depth) && depth.Keys <= ids
  {
    forall x, k: nat | Hops(edges, sources, x, k)
      ensures x in depth && depth[x] <= k
    {
      ClosedIsShortest(edges, sources, depth, x, k);
    }
  }

  /** Discover the neighbours of the device taken off the queue. */
  method Visit(ids: set<string>, edges: seq<Edge>, ghost sources: set<string>, depth0: map<string, nat>,
               identity: string, waiting: seq<string>)
    returns (depth: map<string, nat>, queue: seq<string>)
    requires EndsNamed(ids, edges) && SearchState(ids, edges, sources, depth0, [identity] + waiting)
    ensures SearchState(ids, edges, sources, depth, queue)
    ensures (depth == depth0 && queue == waiting) || Unreached(ids, depth) < Unreached(ids, depth0)
  {
    hide Sound, Frontier, DoneClosed, Linked;
    depth, queue := depth0, waiting;
    ghost var full := [identity] + waiting;
    assert full[0] == identity && identity in full;
    QueuedIsKnown(depth, full);
    var others := Neighbours(edges, identity);
    for i := 0 to |others|
      invariant full == [identity] + queue && identity in depth
      invariant SearchState(ids, edges, sources, depth, full)
      invariant forall k :: 0 <= k < i ==> others[k] in depth && depth[others[k]] <= depth[identity] + 1
      invariant (depth == depth0 && queue == waiting) || depth0.Keys < depth.Keys
    {
      var other := others[i];
      assert other in others;
      if other !in depth {
        DiscoverStep(ids, edges, sources, depth, full, other);
        depth := depth[other := depth[identity] + 1];
        queue, full := queue + [other], full + [other];
      } else {
        HeadIsShallow(depth, full, other);
      }
    }
    assert forall y :: Linked(edges, identity, y) ==> y in others;
    HeadDone(edges, depth, identity, queue);
    if depth0.Keys < depth.Keys {
      SmallerDifference(ids, depth0.Keys, depth.Keys);
    }
  }

  lemma QueuedIsKnown(depth: map<string, nat>, full: seq<string>)
    requires Frontier(depth, full)
    ensures forall x :: x in full ==> x in depth
  {
  }

  lemma HeadIsShallow(depth: map<string, nat>, full: seq<string>, x: string)
    requires Frontier(depth, full) && full != [] && x in depth && full[0] in depth
    ensures depth[x] <= depth[full[0]] + 1
  {
  }

  /** Once all its neighbours are known, the head may leave the queue. */
  lemma HeadDone(edges: seq<Edge>, depth: map<string, nat>, identity: string, queue: seq<string>)
    requires identity in depth && Frontier(depth, [identity] + queue) && DoneClosed(edges, depth, [identity] + queue)
    requires forall y :: Linked(edges, identity, y) ==> y in depth && depth[y] <= depth[identity] + 1
    ensures Frontier(depth, queue) && DoneClosed(edges, depth, queue)
  {
    var before := [identity] + queue;
    assert forall x :: x in queue ==> x in before;
    assert forall i :: 0 <= i < |queue| ==> queue[i] == before[i + 1];
    if queue != [] {
      assert depth[before[0]] <= depth[before[1]];
    }
    forall x, y | x in depth && x !in queue && Linked(edges, x, y)
      ensures y in depth && depth[y] <= depth[x] + 1
    {
      assert x != identity ==> x !in before;
    }
  }

  lemma LinkedIsNamed(ids: set<string>, edges: seq<Edge>, x: string, y: string)
    requires EndsNamed(ids, edges) && Linked(edges, x, y)
    ensures x in ids && y in ids
  {
  }

  lemma DiscoverStep(ids: set<string>, edges: seq<Edge>, sources: set<string>, depth: map<string, nat>,
                     full: seq<string>, other: string)
    requires EndsNamed(ids, edges) && SearchState(ids, edges, sources, depth, full)
    requires full != [] && full[0] in depth && other !in depth && Linked(edges, full[0], other)
    ensures SearchState(ids, edges, sources, depth[other := depth[full[0]] + 1], full + [other])
  {
    LinkedIsNamed(ids, edges, full[0], other);
    var deeper := depth[other := depth[full[0]] + 1];
    assert Hops(edges, sources, other, depth[full[0]] + 1);
    assert Sound(edges, sources, deeper);
    FrontierGrows(depth, full, other);
    assert forall x :: x in full ==> x in full + [other];
    assert DoneClosed(edges, deeper, full + [other]);
  }

  lemma FrontierGrows(depth: map<string, nat>, full: seq<string>, other: string)
    requires Frontier(depth, full) && full != [] && full[0] in depth && other !in depth
    ensures Frontier(depth[other := depth[full[0]] + 1], full + [other])
  {
  }

  /******* Orientation and connection types *******/

  function Level(depth: map<string, nat>, x: string): nat {
    if x in depth then depth[x] else 0
  }

  function Turned(e: Edge, depth: map<string, nat>): Edge {
    if Level(depth, e.source) > Level(depth, e.target) then Edge(e.target, e.source, e.medium) else e
  }

  /** Whether an edge, once turned, tells its target how it is connected. */
  predicate Feeds(e: Edge, depth: map<string, nat>, x: string) {
    e.target == x && (x !in depth || depth[x] > Level(depth, e.source))
  }

  /** The last edge to feed `x` decides. */
  function FedBy(edges: seq<Edge>, depth: map<string, nat>, x: string): (fed: Option<Medium>)
    ensures fed.Some? ==> exists e :: e in edges && Feeds(e, depth, x) && fed == Some(e.medium)
    ensures fed.None? ==> forall e :: e in edges ==> !Feeds(e, depth, x)
  {
    if edges == [] then None
    else
      var e := edges[|edges| - 1];
      if Feeds(e, depth, x) then Some(e.medium) else FedBy(edges[..|edges| - 1], depth, x)
  }

  ghost predicate SameRows(a: seq<Device>, b: seq<Device>) {
    |a| == |b| && forall i :: 0 <= i < |a| ==> a[i].(connection := None) == b[i].(connection := None)
  }

  /** Each device's row shows the medium it was last fed, unless the row is a gateway's. */
  ghost predicate ConnectionsFollow(devices: seq<Device>, edges: seq<Edge>, depth: map<string, nat>) {
    forall r :: 0 <= r < |devices| ==>
      devices[r].connection ==
      if devices[r].gateway || !IsRow(devices, r) then None else FedBy(edges, depth, devices[r].id)
  }

  ghost predicate IsRow(devices: seq<Device>, r: nat)
    requires r < |devices|
  {
    forall k :: r < k < |devices| ==> devices[k].id != devices[r].id
  }

  method Orient(devices0: seq<Device>, edges0: seq<Edge>, depth: map<string, nat>)
    returns (devices: seq<Device>, edges: seq<Edge>)
    requires forall d :: d in devices0 ==> d.connection == None
    requires forall e :: e in edges0 ==> Named(devices0, e.source) && Named(devices0, e.target)
    ensures |edges| == |edges0| && forall i :: 0 <= i < |edges| ==> edges[i] == Turned(edges0[i], depth)
    ensures SameRows(devices, devices0) && ConnectionsFollow(devices, edges, depth)
  {
    hide Named, SameRows, ConnectionsFollow, Connect, Turned;
    devices, edges := devices0, [];
    OrientStarts(devices0, depth);
    for i := 0 to |edges0|
      invariant |edges| == i && forall k :: 0 <= k < i ==> edges[k] == Turned(edges0[k], depth)
      invariant SameRows(devices, devices0) && ConnectionsFollow(devices, edges, depth)
    {
      var e := Turned(edges0[i], depth);
      assert edges0[i] in edges0;
      TurnedEnds(edges0[i], depth);
      RowsKeepNames(devices, devices0, e.target);
      FeedStep(devices, devices0, edges, depth, e);
      devices := Connect(devices, depth, e);
      edges := edges + [e];
    }
  }

  lemma OrientStarts(devices: seq<Device>, depth: map<string, nat>)
    requires forall d :: d in devices ==> d.connection == None
    ensures SameRows(devices, devices) && ConnectionsFollow(devices, [], depth)
  {
  }

  lemma TurnedEnds(e: Edge, depth: map<string, nat>)
    ensures var t := Turned(e, depth);
            && ((t.source == e.source && t.target == e.target) || (t.source == e.target && t.target == e.source))
            && Level(depth, t.source) <= Level(depth, t.target)
  {
  }

  lemma RowsKeepNames(a: seq<Device>, b: seq<Device>, id: string)
    requires SameRows(a, b) && Named(b, id)
    ensures Named(a, id)
  {
  }

  function Connect(devices: seq<Device>, depth: map<string, nat>, e: Edge): seq<Device>
    requires Named(devices, e.target)
  {
    var r := Row(devices, e.target);
    if !devices[r].gateway && Feeds(e, depth, e.target) then devices[r := devices[r].(connection := Some(e.medium))]
    else devices
  }

  lemma FeedStep(devices: seq<Device>, devices0: seq<Device>, edges: seq<Edge>, depth: map<string, nat>, e: Edge)
    requires SameRows(devices, devices0) && ConnectionsFollow(devices, edges, depth)
    requires Named(devices, e.target)
    ensures SameRows(Connect(devices, depth, e), devices0)
    ensures ConnectionsFollow(Connect(devices, depth, e), edges + [e], depth)
  {
    var after := Connect(devices, depth, e);
    ConnectTouchesRow(devices, depth, e);
    SameIdsSameRows(devices, after);
    hide Connect, Row, IsRow, Named, FedBy;
    forall k | 0 <= k < |after|
      ensures after[k].connection ==
              if after[k].gateway || !IsRow(after, k) then None else FedBy(edges + [e], depth, after[k].id)
    {
      FedByOneMore(edges, e, depth, after[k].id);
      OnlyRowIsNamed(devices, e.target, k);
    }
  }

  lemma ConnectTouchesRow(devices: seq<Device>, depth: map<string, nat>, e: Edge)
    requires Named(devices, e.target)
    ensures var r, after := Row(devices, e.target), Connect(devices, depth, e);
            && |after| == |devices|
            && forall k :: 0 <= k < |after| ==>
                 && after[k].(connection := None) == devices[k].(connection := None)
                 && after[k].id == devices[k].id && after[k].gateway == devices[k].gateway
                 && after[k].connection ==
                      if k == r && !devices[r].gateway && Feeds(e, depth, e.target) then Some(e.medium) else devices[k].connection
  {
    hide Feeds, Named, Row;
  }

  lemma SameIdsSameRows(a: seq<Device>, b: seq<Device>)
    requires |a| == |b| && forall k :: 0 <= k < |a| ==> a[k].id == b[k].id
    ensures forall k :: 0 <= k < |a| ==> (IsRow(a, k) <==> IsRow(b, k))
  {
  }

  lemma FedByOneMore(edges: seq<Edge>, e: Edge, depth: map<string, nat>, x: string)
    ensures FedBy(edges + [e], depth, x) == if Feeds(e, depth, x) then Some(e.medium) else FedBy(edges, depth, x)
  {
    assert (edges + [e])[..|edges|] == edges;
  }

  lemma OnlyRowIsNamed(devices: seq<Device>, id: string, k: nat)
    requires Named(devices, id) && k < |devices|
    ensures IsRow(devices, k) && devices[k].id == id <==> k == Row(devices, id)
  {
  }

  /******* The report *******/

  /** Every edge that touches a reached device leads from it or to it by at most one hop. */
  ghost predicate Oriented(edges: seq<Edge>, depth: map<string, nat>) {
    forall e :: e in edges && (e.source in depth || e.target in depth) ==>
      e.source in depth && e.target in depth && depth[e.source] <= depth[e.target] <= depth[e.source] + 1
  }

  /** The connection type of a reached device below the gateways is that of an edge from
      a device exactly one hop nearer. */
  ghost predicate ConnectedFromNearer(devices: seq<Device>, edges: seq<Edge>, depth: map<string, nat>) {
    forall r :: 0 <= r < |devices| && IsRow(devices, r) && devices[r].id in depth && depth[devices[r].id] > 0 ==>
      exists e :: e in edges && e.target == devices[r].id && e.source in depth
                  && depth[e.source] + 1 == depth[devices[r].id] && devices[r].connection == Some(e.medium)
  }

  lemma {:induction false} SameLinksSameHops(a: seq<Edge>, b: seq<Edge>, sources: set<string>, x: string, k: nat)
    requires forall p, q :: Linked(a, p, q) ==> Linked(b, p, q)
    requires Hops(a, sources, x, k)
    ensures Hops(b, sources, x, k)
    decreases k
  {
    if k > 0 {
      var y :| Hops(a, sources, y, k - 1) && Linked(a, y, x);
      SameLinksSameHops(a, b, sources, y, k - 1);
    }
  }

  lemma TurningKeepsLinks(before: seq<Edge>, after: seq<Edge>, depth: map<string, nat>)
    requires |after| == |before| && forall i :: 0 <= i < |after| ==> after[i] == Turned(before[i], depth)
    ensures forall p, q :: Linked(before, p, q) <==> Linked(after, p, q)
  {
    forall p, q
      ensures Linked(before, p, q) <==> Linked(after, p, q)
    {
      if Linked(before, p, q) {
        var e :| e in before && Joins(e, p, q);
        var i :| 0 <= i < |before| && before[i] == e;
        assert after[i] in after && Joins(after[i], p, q);
      }
      if Linked(after, p, q) {
        var e :| e in after && Joins(e, p, q);
        var i :| 0 <= i < |after| && after[i] == e;
        assert before[i] in before && Joins(before[i], p, q);
      }
    }
  }

  lemma TurningKeepsDistance(before: seq<Edge>, after: seq<Edge>, sources: set<string>, depth: map<string, nat>)
    requires |after| == |before| && forall i :: 0 <= i < |after| ==> after[i] == Turned(before[i], depth)
    requires ShortestHops(before, sources, depth)
    ensures ShortestHops(after, sources, depth)
  {
    TurningKeepsLinks(before, after, depth);
    forall x | x in depth
      ensures Hops(after, sources, x, depth[x])
    {
      assert Hops(before, sources, x, depth[x]);
      SameLinksSameHops(before, after, sources, x, depth[x]);
    }
    forall x, k: nat | Hops(after, sources, x, k)
      ensures x in depth && depth[x] <= k
    {
      SameLinksSameHops(after, before, sources, x, k);
    }
  }

  /** Linked devices are both reached or neither, at most one hop apart. */
  lemma LinkedLevels(edges: seq<Edge>, sources: set<string>, depth: map<string, nat>, x: string, y: string)
    requires ShortestHops(edges, sources, depth) && Linked(edges, x, y) && x in depth
    ensures y in depth && depth[y] <= depth[x] + 1
  {
    assert Hops(edges, sources, x, depth[x]);
    assert Hops(edges, sources, y, depth[x] + 1);
  }

  lemma TurnedIsOriented(edges: seq<Edge>, sources: set<string>, depth: map<string, nat>)
    requires ShortestHops(edges, sources, depth)
    requires forall e :: e in edges ==> Level(depth, e.source) <= Level(depth, e.target)
    ensures Oriented(edges, depth)
  {
    forall e | e in edges && (e.source in depth || e.target in depth)
      ensures e.source in depth && e.target in depth && depth[e.source] <= depth[e.target] <= depth[e.source] + 1
    {
      assert Joins(e, e.source, e.target) && Joins(e, e.target, e.source);
      if e.source in depth {
        LinkedLevels(edges, sources, depth, e.source, e.target);
      } else {
        LinkedLevels(edges, sources, depth, e.target, e.source);
      }
    }
  }

  /** A reached device below the gateways has an edge from a device one hop nearer. */
  lemma NearerExists(edges: seq<Edge>, sources: set<string>, depth: map<string, nat>, x: string) returns (e: Edge)
    requires ShortestHops(edges, sources, depth) && Oriented(edges, depth)
    requires x in depth && depth[x] > 0
    ensures e in edges && Feeds(e, depth, x)
  {
    assert Hops(edges, sources, x, depth[x]);
    var y :| Hops(edges, sources, y, depth[x] - 1) && Linked(edges, y, x);
    assert y in depth && depth[y] <= depth[x] - 1;
    e :| e in edges && Joins(e, y, x);
  }

  lemma FedFromNearer(devices: seq<Device>, edges: seq<Edge>, sources: set<string>, depth: map<string, nat>)
    requires ShortestHops(edges, sources, depth) && Oriented(edges, depth)
    requires ConnectionsFollow(devices, edges, depth)
    requires forall d :: d in devices && d.gateway ==> d.id in sources
    ensures ConnectedFromNearer(devices, edges, depth)
  {
    forall r | 0 <= r < |devices| && IsRow(devices, r) && devices[r].id in depth && depth[devices[r].id] > 0
      ensures exists e :: e in edges && e.target == devices[r].id && e.source in depth
                          && depth[e.source] + 1 == depth[devices[r].id] && devices[r].connection == Some(e.medium)
    {
      var x := devices[r].id;
      var near := NearerExists(edges, sources, depth, x);
      assert devices[r] in devices;
      if devices[r].gateway {
        assert Hops(edges, sources, x, 0);
      }
      var e :| e in edges && Feeds(e, depth, x) && FedBy(edges, depth, x) == Some(e.medium);
    }
  }

  datatype Topology = Topology(devices: seq<Device>, edges: seq<Edge>)

  function GatewayIds(devices: seq<Device>): (ids: seq<string>)
    ensures forall x :: x in ids <==> exists d :: d in devices && d.gateway && d.id == x
  {
    if devices == [] then []
    else (if devices[0].gateway then [devices[0].id] else []) + GatewayIds(devices[1..])
  }

  /** What a list of nodes says: a row for each usable node, in order. */
  function Rows(nodes: seq<Node>, hosts: seq<Host>, existing: seq<Known>, gatewayIp: Option<string>): (rows: seq<Device>)
    ensures forall d :: d in rows ==> d.id != "" && d.connection == None
    ensures rows == [] <==> forall i :: 0 <= i < |nodes| ==> !Usable(nodes[i])
  {
    if nodes == [] then []
    else
      var rows, n := Rows(nodes[..|nodes| - 1], hosts, existing, gatewayIp), nodes[|nodes| - 1];
      if Usable(n) then rows + [DeviceOf(n, hosts, existing, gatewayIp)] else rows
  }

  /** The device id behind each node; where a node's id repeats, the last one counts. */
  function Identities(nodes: seq<Node>, hosts: seq<Host>, existing: seq<Known>, gatewayIp: Option<string>): map<string, string> {
    if nodes == [] then map[]
    else
      var ids, n := Identities(nodes[..|nodes| - 1], hosts, existing, gatewayIp), nodes[|nodes| - 1];
      if Usable(n) then ids[n.uid := DeviceOf(n, hosts, existing, gatewayIp).id] else ids
  }

  /** The links the usable nodes list. */
  function RawLinks(nodes: seq<Node>): seq<Link> {
    if nodes == [] then []
    else
      var links, n := RawLinks(nodes[..|nodes| - 1]), nodes[|nodes| - 1];
      if Usable(n) then links + n.links else links
  }

  lemma NothingRead(hosts: seq<Host>, existing: seq<Known>, gatewayIp: Option<string>)
    ensures Rows([], hosts, existing, gatewayIp) == [] && Identities([], hosts, existing, gatewayIp) == map[] && RawLinks([]) == []
  {
  }

  lemma OneMoreNode(nodes: seq<Node>, n: Node, hosts: seq<Host>, existing: seq<Known>, gatewayIp: Option<string>)
    ensures var d := DeviceOf(n, hosts, existing, gatewayIp);
            && Rows(nodes + [n], hosts, existing, gatewayIp) ==
                 (if Usable(n) then Rows(nodes, hosts, existing, gatewayIp) + [d] else Rows(nodes, hosts, existing, gatewayIp))
            && Identities(nodes + [n], hosts, existing, gatewayIp) ==
                 (if Usable(n) then Identities(nodes, hosts, existing, gatewayIp)[n.uid := d.id]
                  else Identities(nodes, hosts, existing, gatewayIp))
            && RawLinks(nodes + [n]) == if Usable(n) then RawLinks(nodes) + n.links else RawLinks(nodes)
  {
    hide DeviceOf, Usable;
    assert (nodes + [n])[..|nodes|] == nodes;
  }

  lemma NamesGrow(devices: seq<Device>, d: Device)
    ensures Named(devices + [d], d.id) && forall id :: Named(devices, id) ==> Named(devices + [d], id)
  {
    assert d in devices + [d];
    assert forall x :: x in devices ==> x in devices + [d];
  }

  /** The devices a report names, the id behind each node, and all links it lists. */
  method ReadNodes(nodes: seq<Node>, hosts: seq<Host>, existing: seq<Known>, gatewayIp: Option<string>)
    returns (devices: seq<Device>, identities: map<string, string>, links: seq<Link>)
    ensures devices == Rows(nodes, hosts, existing, gatewayIp)
    ensures identities == Identities(nodes, hosts, existing, gatewayIp)
    ensures links == RawLinks(nodes)
    ensures forall uid :: uid in identities ==> Named(devices, identities[uid])
  {
    devices, identities, links := [], map[], [];
    NothingRead(hosts, existing, gatewayIp);
    hide Rows, Identities, RawLinks, Named, DeviceOf;
    assert nodes[..0] == [];
    for i := 0 to |nodes|
      invariant devices == Rows(nodes[..i], hosts, existing, gatewayIp)
      invariant identities == Identities(nodes[..i], hosts, existing, gatewayIp)
      invariant links == RawLinks(nodes[..i])
      invariant forall uid :: uid in identities ==> Named(devices, identities[uid])
    {
      var n := nodes[i];
      assert nodes[..i + 1] == nodes[..i] + [n];
      OneMoreNode(nodes[..i], n, hosts, existing, gatewayIp);
      if Usable(n) {
        var d := DeviceOf(n, hosts, existing, gatewayIp);
        NamesGrow(devices, d);
        devices := devices + [d];
        identities := identities[n.uid := d.id];
        links := links + n.links;
      }
    }
    assert nodes[..|nodes|] == nodes;
  }

  /** Turning edges round keeps them the collected ones. */
  lemma TurningKeepsCollected(identities: map<string, string>, links: seq<Link>, before: seq<Edge>, after: seq<Edge>, depth: map<string, nat>)
    requires Collected(identities, links, before)
    requires |after| == |before| && forall i :: 0 <= i < |after| ==> after[i] == Turned(before[i], depth)
    ensures Collected(identities, links, after)
  {
    hide FirstMedium;
    TurningKeepsMedia(identities, links, before, after, depth);
    TurningKeepsLinks(before, after, depth);
    TurningKeepsSingle(before, after, depth);
    hide Turned, Joins, Linked;
  }

  lemma TurningKeepsMedia(identities: map<string, string>, links: seq<Link>, before: seq<Edge>, after: seq<Edge>, depth: map<string, nat>)
    requires forall e :: e in before ==>
               e.source != e.target && FirstMedium(identities, links, e.source, e.target) == Some(e.medium)
    requires |after| == |before| && forall i :: 0 <= i < |after| ==> after[i] == Turned(before[i], depth)
    ensures forall e :: e in after ==>
              e.source != e.target && FirstMedium(identities, links, e.source, e.target) == Some(e.medium)
  {
    hide FirstMedium;
    forall e | e in after
      ensures e.source != e.target && FirstMedium(identities, links, e.source, e.target) == Some(e.medium)
    {
      var i :| 0 <= i < |after| && after[i] == e;
      assert before[i] in before;
      FirstMediumSymmetric(identities, links, e.source, e.target);
    }
  }

  lemma TurningKeepsSingle(before: seq<Edge>, after: seq<Edge>, depth: map<string, nat>)
    requires forall i, j :: 0 <= i < j < |before| ==> !Joins(before[j], before[i].source, before[i].target)
    requires |after| == |before| && forall i :: 0 <= i < |after| ==> after[i] == Turned(before[i], depth)
    ensures forall i, j :: 0 <= i < j < |after| ==> !Joins(after[j], after[i].source, after[i].target)
  {
  }

  lemma RowsKeepIds(a: seq<Device>, b: seq<Device>)
    requires SameRows(a, b) && forall d :: d in b ==> d.id != ""
    ensures forall d :: d in a ==> d.id != ""
  {
  }

  lemma {:induction false} SameGateways(a: seq<Device>, b: seq<Device>)
    requires SameRows(a, b)
    ensures GatewayIds(a) == GatewayIds(b)
  {
    if a != [] {
      SameGateways(a[1..], b[1..]);
      assert a[0].(connection := None) == b[0].(connection := None);
      assert a[0].gateway == a[0].(connection := None).gateway && a[0].id == a[0].(connection := None).id;
    }
  }

  /** Turning edges round keeps their ends, so there is still one per pair and no loop. */
  ghost predicate SimpleGraph(devices: seq<Device>, edges: seq<Edge>) {
    && (forall e :: e in edges ==> e.source != e.target && Named(devices, e.source) && Named(devices, e.target))
    && (forall i, j :: 0 <= i < j < |edges| ==> !Joins(edges[j], edges[i].source, edges[i].target))
  }

  lemma TurningKeepsEdges(read: seq<Device>, devices: seq<Device>, before: seq<Edge>, after: seq<Edge>, depth: map<string, nat>)
    requires SameRows(devices, read) && SimpleGraph(read, before)
    requires |after| == |before| && forall i :: 0 <= i < |after| ==> after[i] == Turned(before[i], depth)
    ensures SimpleGraph(devices, after)
    ensures forall e :: e in after ==> Level(depth, e.source) <= Level(depth, e.target)
  {
    hide Named, SameRows, Joins, Turned, Level;
    forall e | e in after
      ensures e.source != e.target && Named(devices, e.source) && Named(devices, e.target)
      ensures Level(depth, e.source) <= Level(depth, e.target)
    {
      var i :| 0 <= i < |after| && after[i] == e;
      assert before[i] in before;
      TurnedEnds(before[i], depth);
      RowsKeepNames(devices, read, e.source);
      RowsKeepNames(devices, read, e.target);
    }
    TurningKeepsSingle(before, after, depth);
  }

  lemma CollectedIsSimple(identities: map<string, string>, links: seq<Link>, devices: seq<Device>, edges: seq<Edge>, ids: set<string>)
    requires Collected(identities, links, edges) && forall e :: e in edges ==> Named(devices, e.source) && Named(devices, e.target)
    requires ids == set d | d in devices :: d.id
    ensures SimpleGraph(devices, edges) && EndsNamed(ids, edges)
  {
    hide FirstMedium;
  }

  lemma GatewaysAreSources(devices: seq<Device>)
    ensures forall d :: d in devices && d.gateway ==> d.id in Elements(GatewayIds(devices))
  {
  }

  /******* What the whole result means *******/

  ghost predicate CutTo<T>(all: seq<T>, n: nat, cut: seq<T>) {
    cut <= all && |cut| == if |all| < n then |all| else n
  }

  /** An active link between nodes of two different devices. */
  ghost predicate Connects(nodes: seq<Node>, devices: seq<Device>, link: Link, a: string, b: string) {
    link.active && a != b && Behind(nodes, devices, link.uid1, a) && Behind(nodes, devices, link.uid2, b)
  }

  /** How far from a gateway a device is, one that none reaches counting as at one. */
  ghost function Distance(depth: map<string, nat>, id: string): nat {
    if id in depth then depth[id] else 0
  }

  /** The edge leads from the nearer device to the farther; between equals, from a gateway listed second,
      else from the device listed first. */
  ghost predicate LedFromNearer(devices: seq<Device>, depth: map<string, nat>, a: string, b: string, medium: Medium, e: Edge) {
    e == if Distance(depth, a) < Distance(depth, b) then Edge(a, b, medium)
         else if Distance(depth, b) < Distance(depth, a) then Edge(b, a, medium)
         else if GatewayRow(devices, b) then Edge(b, a, medium) else Edge(a, b, medium)
  }

  ghost predicate StandsFor(nodes: seq<Node>, devices: seq<Device>, depth: map<string, nat>, link: Link, e: Edge) {
    exists a, b :: Connects(nodes, devices, link, a, b) && LedFromNearer(devices, depth, a, b, link.medium, e)
  }

  /** The edges stand for the links that connect devices, in the links' order: each pair's first link has
      one, which `from` names, and no pair is left out. */
  ghost predicate Drawn(nodes: seq<Node>, devices: seq<Device>, links: seq<Link>, depth: map<string, nat>, edges: seq<Edge>, from: seq<nat>) {
    && |from| == |edges|
    && (forall j, k :: 0 <= j < k < |from| ==> from[j] < from[k])
    && (forall k :: 0 <= k < |from| ==> from[k] < |links| && StandsFor(nodes, devices, depth, links[from[k]], edges[k]))
    && (forall k, i :: 0 <= k < |from| && 0 <= i < from[k] ==>
          !Connects(nodes, devices, links[i], edges[k].source, edges[k].target)
          && !Connects(nodes, devices, links[i], edges[k].target, edges[k].source))
    && (forall i, a, b :: 0 <= i < |links| && Connects(nodes, devices, links[i], a, b) ==> Linked(edges, a, b))
  }

  ghost predicate LeadsIn(e: Edge, depth: map<string, nat>, id: string) {
    e.target == id && (id in depth ==> Distance(depth, e.source) < depth[id])
  }

  /** The medium of the last edge that leads in from nearer the gateways, or from anywhere to a device none reaches. */
  ghost predicate LastLeadIn(edges: seq<Edge>, depth: map<string, nat>, id: string, medium: Option<Medium>) {
    match medium
    case None => forall e :: e in edges ==> !LeadsIn(e, depth, id)
    case Some(m) => exists k :: 0 <= k < |edges| && LeadsIn(edges[k], depth, id) && edges[k].medium == m
                                && forall j :: k < j < |edges| ==> !LeadsIn(edges[j], depth, id)
  }

  /** Every device's connection type, where an id repeats that of its last row; gateways have none. */
  ghost predicate ConnectionsLedIn(devices: seq<Device>, edges: seq<Edge>, depth: map<string, nat>) {
    forall r :: 0 <= r < |devices| ==>
      if devices[r].gateway || (exists k :: r < k < |devices| && devices[k].id == devices[r].id) then devices[r].connection == None
      else LastLeadIn(edges, depth, devices[r].id, devices[r].connection)
  }

  ghost function GatewaysOf(devices: seq<Device>): set<string> {
    set d | d in devices && d.gateway :: d.id
  }

  lemma BehindIsIdentity(nodes: seq<Node>, rows: seq<Device>, identities: map<string, string>, uid: string, id: string)
    requires |rows| == |nodes| && IdentitiesRead(nodes, rows, identities)
    ensures Behind(nodes, rows, uid, id) <==> uid in identities && identities[uid] == id
  {
    if Behind(nodes, rows, uid, id) {
      var i :| 0 <= i < |nodes| && nodes[i].uid == uid && rows[i].id == id && forall j :: i < j < |nodes| ==> nodes[j].uid != uid;
      assert nodes[i] in nodes;
      var k :| 0 <= k < |nodes| && nodes[k].uid == uid && rows[k].id == identities[uid]
               && forall j :: k < j < |nodes| ==> nodes[j].uid != uid;
      assert i == k;
    }
  }

  /** Connection types apart, rows say the same. */
  lemma SameRowsSameMeaning(nodes: seq<Node>, hosts: seq<Host>, existing: seq<Known>, gatewayIp: Option<string>,
                            read: seq<Device>, devices: seq<Device>)
    requires SameRows(devices, read) && RowsRead(nodes, hosts, existing, gatewayIp, read)
    ensures RowsRead(nodes, hosts, existing, gatewayIp, devices)
    ensures forall uid, id :: Behind(nodes, read, uid, id) <==> Behind(nodes, devices, uid, id)
    ensures forall id :: GatewayRow(read, id) <==> GatewayRow(devices, id)
  {
    RowFields(devices, read);
    forall i | 0 <= i < |devices| ensures RowOf(nodes[i], hosts, existing, gatewayIp, devices[i]) {
      SameRowMeaning(nodes[i], hosts, existing, gatewayIp, read[i], devices[i]);
    }
    hide RowOf, SameRows;
  }

  lemma RowFields(a: seq<Device>, b: seq<Device>)
    requires SameRows(a, b)
    ensures |a| == |b| && forall i :: 0 <= i < |a| ==>
              a[i].id == b[i].id && a[i].gateway == b[i].gateway && a[i].mac == b[i].mac && a[i].ip == b[i].ip
  {
    forall i | 0 <= i < |a|
      ensures a[i].id == b[i].id && a[i].gateway == b[i].gateway && a[i].mac == b[i].mac && a[i].ip == b[i].ip
    {
      var x, y := a[i].(connection := None), b[i].(connection := None);
      assert x == y && a[i].id == x.id && a[i].gateway == x.gateway && a[i].mac == x.mac && a[i].ip == x.ip;
    }
  }

  lemma SameRowMeaning(n: Node, hosts: seq<Host>, existing: seq<Known>, gatewayIp: Option<string>, a: Device, b: Device)
    requires RowOf(n, hosts, existing, gatewayIp, a)
    requires a.id == b.id && a.gateway == b.gateway && a.mac == b.mac && a.ip == b.ip
    ensures RowOf(n, hosts, existing, gatewayIp, b)
  {
    var known, host :| LastKnown(existing, n.mac, known) && LastHost(hosts, n.mac, host)
                       && Describes(known, host, n.mac, gatewayIp, a);
    assert Describes(known, host, n.mac, gatewayIp, b);
  }

  lemma EdgeStandsFor(nodes: seq<Node>, read: seq<Device>, devices: seq<Device>, identities: map<string, string>, link: Link,
                      depth: map<string, nat>, e: Edge)
    requires |read| == |nodes| && IdentitiesRead(nodes, read, identities) && DrawnAs(identities, read, link, e)
    requires forall uid, id :: Behind(nodes, read, uid, id) <==> Behind(nodes, devices, uid, id)
    requires forall id :: GatewayRow(read, id) <==> GatewayRow(devices, id)
    ensures StandsFor(nodes, devices, depth, link, Turned(e, depth))
  {
    var a, b := identities[link.uid1], identities[link.uid2];
    BehindIsIdentity(nodes, read, identities, link.uid1, a);
    BehindIsIdentity(nodes, read, identities, link.uid2, b);
    hide Behind, GatewayRow, IdentitiesRead;
    assert Connects(nodes, devices, link, a, b);
    assert LedFromNearer(devices, depth, a, b, link.medium, Turned(e, depth));
  }

  lemma ConnectingIsAccepted(nodes: seq<Node>, read: seq<Device>, identities: map<string, string>, link: Link, a: string, b: string)
    requires |read| == |nodes| && IdentitiesRead(nodes, read, identities)
    ensures Connects(nodes, read, link, a, b) ==> Accepted(identities, link, a, b) && Accepted(identities, link, b, a)
  {
    BehindIsIdentity(nodes, read, identities, link.uid1, a);
    BehindIsIdentity(nodes, read, identities, link.uid2, b);
    hide Behind, IdentitiesRead;
  }

  lemma EdgesAreDrawn(nodes: seq<Node>, read: seq<Device>, devices: seq<Device>, identities: map<string, string>, links: seq<Link>,
                      before: seq<Edge>, edges: seq<Edge>, from: seq<nat>, depth: map<string, nat>)
    requires |read| == |nodes| && IdentitiesRead(nodes, read, identities) && Origins(identities, links, read, before, from)
    requires Collected(identities, links, edges)
    requires |edges| == |before| && forall k :: 0 <= k < |edges| ==> edges[k] == Turned(before[k], depth)
    requires forall uid, id :: Behind(nodes, read, uid, id) <==> Behind(nodes, devices, uid, id)
    requires forall id :: GatewayRow(read, id) <==> GatewayRow(devices, id)
    ensures Drawn(nodes, devices, links, depth, edges, from)
  {
    hide Behind, GatewayRow, IdentitiesRead, DrawnAs, Accepted, FirstMedium, Turned, LedFromNearer, Linked;
    forall k | 0 <= k < |from| ensures from[k] < |links| && StandsFor(nodes, devices, depth, links[from[k]], edges[k]) {
      EdgeStandsFor(nodes, read, devices, identities, links[from[k]], depth, before[k]);
    }
    forall k, i | 0 <= k < |from| && 0 <= i < from[k]
      ensures !Connects(nodes, devices, links[i], edges[k].source, edges[k].target)
              && !Connects(nodes, devices, links[i], edges[k].target, edges[k].source)
    {
      var e := before[k];
      TurnedEnds(e, depth);
      ConnectingIsAccepted(nodes, read, identities, links[i], e.source, e.target);
      ConnectingIsAccepted(nodes, read, identities, links[i], e.target, e.source);
      assert !Accepted(identities, links[i], e.source, e.target);
    }
    forall i, a, b | 0 <= i < |links| && Connects(nodes, devices, links[i], a, b) ensures Linked(edges, a, b) {
      ConnectingIsAccepted(nodes, read, identities, links[i], a, b);
      assert links[i] in links && FirstMedium(identities, links, a, b).Some?;
    }
    hide StandsFor, Connects;
  }

  lemma {:induction false} FedByIsLast(edges: seq<Edge>, depth: map<string, nat>, id: string)
    ensures LastLeadIn(edges, depth, id, FedBy(edges, depth, id))
  {
    if edges == [] {
    } else {
      var front, last := edges[..|edges| - 1], edges[|edges| - 1];
      FedByIsLast(front, depth, id);
      assert Feeds(last, depth, id) <==> LeadsIn(last, depth, id);
      assert FedBy(edges, depth, id) == if Feeds(last, depth, id) then Some(last.medium) else FedBy(front, depth, id);
      hide *;
      OneMoreLeadIn(front, last, depth, id, FedBy(front, depth, id));
      assert edges == front + [last];
    }
  }

  lemma OneMoreLeadIn(front: seq<Edge>, last: Edge, depth: map<string, nat>, id: string, medium: Option<Medium>)
    requires LastLeadIn(front, depth, id, medium)
    ensures LastLeadIn(front + [last], depth, id, if LeadsIn(last, depth, id) then Some(last.medium) else medium)
  {
    hide LeadsIn;
    var edges := front + [last];
    assert edges[|front|] == last && forall k :: 0 <= k < |front| ==> edges[k] == front[k];
    if !LeadsIn(last, depth, id) && medium.Some? {
      var k :| 0 <= k < |front| && LeadsIn(front[k], depth, id) && front[k].medium == medium.value
               && forall j :: k < j < |front| ==> !LeadsIn(front[j], depth, id);
      assert LeadsIn(edges[k], depth, id);
    }
  }

  lemma ConnectionsAreLedIn(devices: seq<Device>, edges: seq<Edge>, depth: map<string, nat>)
    requires ConnectionsFollow(devices, edges, depth)
    ensures ConnectionsLedIn(devices, edges, depth)
  {
    hide FedBy, LastLeadIn;
    forall r | 0 <= r < |devices| ensures LastLeadIn(edges, depth, devices[r].id, FedBy(edges, depth, devices[r].id)) {
      FedByIsLast(edges, depth, devices[r].id);
    }
  }

  lemma GatewayIdsAreGateways(devices: seq<Device>)
    ensures Elements(GatewayIds(devices)) == GatewaysOf(devices)
  {
  }

  /** What a reading was made of: the nodes and links heard, the link behind each edge, and the distances
      the search found. */
  datatype Reading = Reading(nodes: seq<Node>, links: seq<Link>, from: seq<nat>, depth: map<string, nat>)

  /** The account given of a reading is of this report. */
  ghost predicate Heard(nodes: seq<Node>, why: Reading) {
    exists first :: CutTo(nodes, 2000, first) && why.nodes == Answering(first) && CutTo(Listed(why.nodes), 10000, why.links)
  }

  /** `why` is never seen by the caller; it says what the result means. */
  method ParseTopology(nodes: seq<Node>, hosts: seq<Host>, existing: seq<Known>, gatewayIp: Option<string>)
    returns (r: Result<Topology>, ghost why: Reading)
    ensures Heard(nodes, why) && (r.Error? <==> nodes != [] && why.nodes == [])
    ensures r.Ok? ==>
      var devices, edges, depth := r.value.devices, r.value.edges, why.depth;
      && RowsRead(why.nodes, hosts, existing, gatewayIp, devices)
      && Drawn(why.nodes, devices, why.links, depth, edges, why.from)
      && ConnectionsLedIn(devices, edges, depth)
      && ShortestHops(edges, GatewaysOf(devices), depth)
      && Oriented(edges, depth) && ConnectedFromNearer(devices, edges, depth)
      && SimpleGraph(devices, edges) && forall d :: d in devices ==> d.id != ""
  {
    var first := Prefix(nodes, MAX_NODES);
    var read, identities, rawLinks := ReadNodes(first, hosts, existing, gatewayIp);
    NodesAreRead(first, hosts, existing, gatewayIp);
    var links := Prefix(rawLinks, MAX_LINKS);
    assert CutTo(nodes, 2000, first) && CutTo(Listed(Answering(first)), 10000, links);
    why := Reading(Answering(first), links, [], map[]);
    assert |read| == |why.nodes| && IdentitiesRead(why.nodes, read, identities) && RowsRead(why.nodes, hosts, existing, gatewayIp, read);
    if nodes != [] && read == [] {
      r := Error("fritz_failed");
      return;
    }
    var collected;
    ghost var from;
    collected, from := CollectEdges(identities, links, read);
    var ids := set d | d in read :: d.id;
    CollectedIsSimple(identities, links, read, collected, ids);
    hide *;
    var hops := HopDepths(ids, collected, GatewayIds(read));
    var devices, edges := Orient(read, collected, hops);
    why := why.(from := from, depth := hops);
    r := Ok(Topology(devices, edges));
    SameGateways(devices, read);
    GatewayIdsAreGateways(devices);
    TurningKeepsDistance(collected, edges, Elements(GatewayIds(read)), hops);
    TurningKeepsEdges(read, devices, collected, edges, hops);
    TurningKeepsCollected(identities, links, collected, edges, hops);
    SameRowsSameMeaning(why.nodes, hosts, existing, gatewayIp, read, devices);
    EdgesAreDrawn(why.nodes, read, devices, identities, links, collected, edges, from, hops);
    ConnectionsAreLedIn(devices, edges, hops);
    RowsKeepIds(devices, read);
    TurnedIsOriented(edges, Elements(GatewayIds(read)), hops);
    GatewaysAreSources(devices);
    FedFromNearer(devices, edges, Elements(GatewayIds(read)), hops);
    StillHeard(nodes, Reading(why.nodes, links, [], map[]), why);
  }

  lemma StillHeard(nodes: seq<Node>, a: Reading, b: Reading)
    requires Heard(nodes, a) && b.nodes == a.nodes && b.links == a.links
    ensures Heard(nodes, b)
  {
  }
}
