/**
 The device graph of the network map: parent links set by hand, mirrored as manual
 edges, next to edges other sources reported.
 */
module DeviceGraph {

  datatype Device = Device(parent: string, connection: string, network: string, ip: string, mac: string, title: string)

  datatype Origin = Manual | Fritz | Zigbee

  datatype Edge = Edge(source: string, target: string, origin: Origin, kind: string)

  type Devices = map<string, Device>

  /******* Walking up *******/

  /** The device `k` parents above `id`, or the empty string once past a root. */
  function Up(d: Devices, id: string, k: nat): string {
    if k == 0 then id
    else
      var below := Up(d, id, k - 1);
      if below in d then d[below].parent else ""
  }

  lemma {:induction false} UpAdd(d: Devices, id: string, a: nat, b: nat)
    ensures Up(d, id, a + b) == Up(d, Up(d, id, a), b)
  {
    if b > 0 { UpAdd(d, id, a, b - 1); }
  }

  lemma {:induction false} UpStaysPast(d: Devices, id: string, a: nat, b: nat)
    requires "" !in d && Up(d, id, a) == "" && a <= b
    ensures Up(d, id, b) == ""
  {
    if a < b { UpStaysPast(d, id, a, b - 1); }
  }

  ghost predicate Rooted(d: Devices, id: string) {
    exists k: nat :: Up(d, id, k) == ""
  }

  /** `above` lies strictly above `id`. */
  ghost predicate Ancestor(d: Devices, id: string, above: string) {
    exists k: nat :: k >= 1 && Up(d, id, k) == above
  }

  /** The walk up from `start` meets known devices only, never `id`, and ends. */
  ghost predicate ClearWalk(d: Devices, start: string, id: string) {
    exists k: nat :: Up(d, start, k) == "" && forall j: nat :: j < k ==> Up(d, start, j) in d && Up(d, start, j) != id
  }

  /******* Well-formed graphs *******/

  ghost predicate Forest(d: Devices) {
    && "" !in d
    && (forall id :: id in d ==> d[id].parent == "" || d[id].parent in d)
    && (forall id :: id in d ==> Rooted(d, id))
  }

  ghost predicate ManualFits(d: Devices, e: Edge) {
    e.origin == Manual ==> e.target in d && e.source != "" && d[e.target].parent == e.source
  }

  ghost predicate HasManual(edges: seq<Edge>, id: string) {
    exists i :: 0 <= i < |edges| && edges[i].origin == Manual && edges[i].target == id
  }

  /** Manual edges are the parent links, one per child. */
  ghost predicate ManualMirrors(d: Devices, edges: seq<Edge>) {
    && (forall i :: 0 <= i < |edges| ==> ManualFits(d, edges[i]))
    && (forall id :: id in d && d[id].parent != "" ==> HasManual(edges, id))
    && OneManualPerChild(edges)
  }

  ghost predicate OneManualPerChild(edges: seq<Edge>) {
    forall i, j :: 0 <= i < j < |edges| && edges[i].origin == Manual && edges[j].origin == Manual ==>
      edges[i].target != edges[j].target
  }

  lemma AppendEdge(edges: seq<Edge>, e: Edge)
    requires OneManualPerChild(edges)
    requires e.origin == Manual ==> forall x :: x in edges && x.origin == Manual ==> x.target != e.target
    ensures OneManualPerChild(edges + [e])
  {
  }

  ghost predicate EndsKnown(d: Devices, edges: seq<Edge>) {
    forall i :: 0 <= i < |edges| ==> edges[i].source in d && edges[i].target in d
  }

  ghost predicate WellFormed(d: Devices, edges: seq<Edge>) {
    Forest(d) && ManualMirrors(d, edges) && EndsKnown(d, edges)
  }

  /******* Setting a parent *******/

  /** Off the path that meets `id`, a changed record of `id` is never looked at. */
  lemma {:induction false} UpAvoiding(d: Devices, e: Devices, x: string, id: string, k: nat)
    requires d.Keys == e.Keys && forall y :: y in d && y != id ==> d[y].parent == e[y].parent
    requires forall j: nat :: j < k ==> Up(d, x, j) != id
    ensures Up(e, x, k) == Up(d, x, k)
  {
    if k > 0 {
      UpAvoiding(d, e, x, id, k - 1);
      assert Up(d, x, k - 1) != id;
    }
  }

  /** The first step at which the walk from `x` satisfies what it satisfies at `k`. */
  lemma {:induction false} FirstMeeting(d: Devices, x: string, id: string, k: nat) returns (first: nat)
    requires Up(d, x, k) == id
    ensures first <= k && Up(d, x, first) == id && forall j: nat :: j < first ==> Up(d, x, j) != id
  {
    if j: nat :| j < k && Up(d, x, j) == id {
      first := FirstMeeting(d, x, id, j);
    } else {
      first := k;
    }
  }

  lemma ReparentedIsRooted(d: Devices, e: Devices, id: string, x: string)
    requires Forest(d) && d.Keys == e.Keys && id in d && x in d
    requires forall y :: y in d && y != id ==> d[y].parent == e[y].parent
    requires ClearWalk(d, e[id].parent, id)
    ensures Rooted(e, x)
  {
    if k: nat :| Up(d, x, k) == id {
      var first := FirstMeeting(d, x, id, k);
      UpAvoiding(d, e, x, id, first);
      var p := e[id].parent;
      var end: nat :| Up(d, p, end) == "" && forall j: nat :: j < end ==> Up(d, p, j) in d && Up(d, p, j) != id;
      UpAvoiding(d, e, p, id, end);
      UpAdd(e, x, first + 1, end);
      assert Up(e, x, first + 1) == p;
    } else {
      var end: nat :| Up(d, x, end) == "";
      UpAvoiding(d, e, x, id, end);
    }
  }

  function WithoutManual(edges: seq<Edge>, id: string): (rest: seq<Edge>)
    ensures forall e :: e in rest <==> e in edges && !(e.origin == Manual && e.target == id)
    ensures |rest| <= |edges|
  {
    if edges == [] then []
    else
      var e := edges[|edges| - 1];
      var rest := WithoutManual(edges[..|edges| - 1], id);
      if e.origin == Manual && e.target == id then rest else rest + [e]
  }

  lemma WithoutManualOneMore(edges: seq<Edge>, e: Edge, id: string)
    ensures WithoutManual(edges + [e], id) == WithoutManual(edges, id) + if e.origin == Manual && e.target == id then [] else [e]
  {
    assert (edges + [e])[..|edges|] == edges;
  }

  /** What is left of a list is what is left of its parts, one after the other. */
  lemma {:induction false} WithoutManualInOrder(a: seq<Edge>, b: seq<Edge>, id: string)
    ensures WithoutManual(a + b, id) == WithoutManual(a, id) + WithoutManual(b, id)
  {
    hide WithoutManual;
    if b == [] {
      assert a + b == a;
    } else {
      var n := |b| - 1;
      WithoutManualInOrder(a, b[..n], id);
      WithoutManualOneMore(b[..n], b[n], id);
      WithoutManualOneMore(a + b[..n], b[n], id);
      assert b == b[..n] + [b[n]] && a + b == a + b[..n] + [b[n]];
    }
  }

  /** Manual edges of distinct children stay so when some edges are dropped. */
  lemma {:induction false} WithoutManualKeepsDistinct(edges: seq<Edge>, id: string)
    requires OneManualPerChild(edges)
    ensures OneManualPerChild(WithoutManual(edges, id))
  {
    if edges != [] {
      var n := |edges| - 1;
      assert forall i :: 0 <= i < n ==> edges[..n][i] == edges[i];
      WithoutManualKeepsDistinct(edges[..n], id);
      forall x | x in WithoutManual(edges[..n], id) && x.origin == Manual && edges[n].origin == Manual
        ensures x.target != edges[n].target
      {
        var i :| 0 <= i < n && edges[..n][i] == x;
        assert edges[i] == x;
      }
      AppendIfKept(edges, id);
    }
  }

  lemma AppendIfKept(edges: seq<Edge>, id: string)
    requires edges != [] && OneManualPerChild(WithoutManual(edges[..|edges| - 1], id))
    requires forall x :: x in WithoutManual(edges[..|edges| - 1], id) && x.origin == Manual && edges[|edges| - 1].origin == Manual ==>
               x.target != edges[|edges| - 1].target
    ensures OneManualPerChild(WithoutManual(edges, id))
  {
  }

  function ParentEdges(edges: seq<Edge>, id: string, device: Device): seq<Edge> {
    if device.parent != "" then WithoutManual(edges, id) + [Edge(device.parent, id, Manual, device.connection)]
    else WithoutManual(edges, id)
  }

  lemma HasManualMember(edges: seq<Edge>, id: string)
    ensures HasManual(edges, id) <==> exists e :: e in edges && e.origin == Manual && e.target == id
  {
  }

  lemma ReparentingKeepsMirror(d: Devices, edges: seq<Edge>, id: string, device: Device)
    requires ManualMirrors(d, edges) && id in d
    ensures ManualMirrors(d[id := device], ParentEdges(edges, id, device))
  {
    var e, after, rest := d[id := device], ParentEdges(edges, id, device), WithoutManual(edges, id);
    WithoutManualKeepsDistinct(edges, id);
    forall i | 0 <= i < |after|
      ensures ManualFits(e, after[i])
    {
      if i < |rest| {
        assert after[i] == rest[i] && rest[i] in rest;
        assert after[i] in edges;
      }
    }
    forall x | x in e && e[x].parent != ""
      ensures HasManual(after, x)
    {
      if x == id {
        assert after[|after| - 1].target == id;
      } else {
        HasManualMember(edges, x);
        var m :| m in edges && m.origin == Manual && m.target == x;
        assert m in rest;
        assert m in after;
        HasManualMember(after, x);
      }
    }
    AppendEdge(rest, Edge(device.parent, id, Manual, device.connection));
  }

  /** A parent found by a clear walk keeps the whole graph well formed. */
  lemma ReparentingKeepsGraph(d: Devices, edges: seq<Edge>, id: string, device: Device)
    requires WellFormed(d, edges) && id in d && ClearWalk(d, device.parent, id)
    ensures WellFormed(d[id := device], ParentEdges(edges, id, device))
  {
    var e := d[id := device];
    assert e.Keys == d.Keys;
    forall x | x in e
      ensures Rooted(e, x)
    {
      ReparentedIsRooted(d, e, id, x);
    }
    ParentIsKnown(d, device.parent, id);
    ReparentingKeepsMirror(d, edges, id, device);
    forall i | 0 <= i < |ParentEdges(edges, id, device)|
      ensures ParentEdges(edges, id, device)[i].source in e && ParentEdges(edges, id, device)[i].target in e
    {
      var x := ParentEdges(edges, id, device)[i];
      assert x in ParentEdges(edges, id, device);
      assert x in edges || x == Edge(device.parent, id, Manual, device.connection);
    }
  }

  lemma ParentIsKnown(d: Devices, parent: string, id: string)
    requires ClearWalk(d, parent, id)
    ensures parent == "" || parent in d
  {
    var k: nat :| Up(d, parent, k) == "" && forall j: nat :: j < k ==> Up(d, parent, j) in d && Up(d, parent, j) != id;
    assert k > 0 ==> Up(d, parent, 0) in d;
  }

  /** An edit goes through exactly when the new parent is none, or a known device that is neither
      the edited one nor below it. */
  lemma ClearMeansNoCycle(d: Devices, parent: string, id: string)
    requires Forest(d) && id in d
    ensures ClearWalk(d, parent, id) <==> parent == "" || (parent in d && parent != id && !Ancestor(d, parent, id))
  {
    if ClearWalk(d, parent, id) {
      var k: nat :| Up(d, parent, k) == "" && forall j: nat :: j < k ==> Up(d, parent, j) in d && Up(d, parent, j) != id;
      assert k > 0 ==> Up(d, parent, 0) in d;
      forall j: nat ensures Up(d, parent, j) != id {
        if j >= k { UpStaysPast(d, parent, k, j); }
      }
      assert parent == "" || Up(d, parent, 0) != id;
    }
    if parent in d && parent != id && !Ancestor(d, parent, id) {
      var end: nat :| Up(d, parent, end) == "";
      var k := FirstMeeting(d, parent, "", end);
      forall j: nat | j < k ensures Up(d, parent, j) in d && Up(d, parent, j) != id {
        assert j > 0 ==> j >= 1;
      }
    }
    if parent == "" { assert Up(d, parent, 0) == ""; }
  }

  /** A walk that comes back to where it was never ends. */
  lemma {:induction false} WalkRepeats(d: Devices, start: string, j: nat, k: nat, end: nat)
    requires "" !in d && j < k && Up(d, start, j) == Up(d, start, k) && Up(d, start, k) != ""
    ensures Up(d, start, end) != ""
    decreases end
  {
    if end <= k {
      if Up(d, start, end) == "" { UpStaysPast(d, start, end, k); }
    } else {
      UpAdd(d, start, k, end - k);
      UpAdd(d, start, j, end - k);
      WalkRepeats(d, start, j, k, j + (end - k));
    }
  }
}
