/**
 Promoting a device known by address to the identity its MAC gives it: when the graph
 survives, exactly.
 */
module Promotion {
  import opened DeviceGraph

  function Renamed(x: string, from: string, to: string): string {
    if x == from then to else x
  }

  /** `from`'s record moves to `to`, replacing any record there, and every link follows. */
  function PromoteDevices(d: Devices, from: string, to: string): Devices
    requires from in d
  {
    map x | x in d.Keys - {from} + {to} ::
      (if x == to then d[from] else d[x]).(parent := Renamed((if x == to then d[from] else d[x]).parent, from, to))
  }

  function PromoteEdge(e: Edge, from: string, to: string): Edge {
    e.(source := Renamed(e.source, from, to), target := Renamed(e.target, from, to))
  }

  function PromoteEdges(edges: seq<Edge>, from: string, to: string): (after: seq<Edge>)
    ensures |after| == |edges| && forall i :: 0 <= i < |edges| ==> after[i] == PromoteEdge(edges[i], from, to)
  {
    seq(|edges|, i requires 0 <= i < |edges| => PromoteEdge(edges[i], from, to))
  }

  /** What has to hold of the identity promoted to: it is new, or it stands alone and does
      not lie above the device that takes its place. */
  ghost predicate SafeTarget(d: Devices, from: string, to: string) {
    to !in d || (d[to].parent == "" && !Ancestor(d, from, to))
  }

  /******* Safe promotions keep the graph *******/

  /** Before it meets the replaced record, a walk is the old walk renamed. */
  lemma {:induction false} RenamedWalk(d: Devices, from: string, to: string, x: string, k: nat)
    requires "" !in d && from in d && from != "" && to != "" && from != to && (x in d || x == "")
    requires forall y :: y in d ==> d[y].parent == "" || d[y].parent in d
    requires forall j: nat :: j < k ==> Up(d, x, j) != to
    ensures Up(PromoteDevices(d, from, to), Renamed(x, from, to), k) == Renamed(Up(d, x, k), from, to)
    ensures Up(d, x, k) == "" || Up(d, x, k) in d
  {
    if k > 0 {
      RenamedWalk(d, from, to, x, k - 1);
      assert Up(d, x, k - 1) != to;
    }
  }

  /** The promoted device's own walk, renamed, from its first parent on. */
  lemma PromotedIsRooted(d: Devices, from: string, to: string)
    requires Forest(d) && from in d && to != "" && from != to
    requires to in d ==> !Ancestor(d, from, to)
    ensures Rooted(PromoteDevices(d, from, to), to)
  {
    var end: nat :| Up(d, from, end) == "";
    forall j: nat | j < end
      ensures Up(d, from, j) != to
    {
      WalkKnown(d, from, j);
      assert j >= 1 && Up(d, from, j) == to ==> Ancestor(d, from, to);
    }
    RenamedWalk(d, from, to, from, end);
  }

  lemma {:induction false} WalkKnown(d: Devices, x: string, k: nat)
    requires Forest(d) && x in d
    ensures Up(d, x, k) == "" || Up(d, x, k) in d
  {
  }

  lemma OthersAreRooted(d: Devices, from: string, to: string, x: string)
    requires Forest(d) && from in d && to != "" && from != to && SafeTarget(d, from, to)
    requires x in d && x != from && x != to
    ensures Rooted(PromoteDevices(d, from, to), x)
  {
    var e := PromoteDevices(d, from, to);
    if k: nat :| Up(d, x, k) == to {
      var first := FirstMeeting(d, x, to, k);
      RenamedWalk(d, from, to, x, first);
      PromotedIsRooted(d, from, to);
      var end: nat :| Up(e, to, end) == "";
      UpAdd(e, x, first, end);
    } else {
      var end: nat :| Up(d, x, end) == "";
      RenamedWalk(d, from, to, x, end);
    }
  }

  lemma PromotionKeepsForest(d: Devices, from: string, to: string)
    requires Forest(d) && from in d && to != "" && from != to && SafeTarget(d, from, to)
    ensures Forest(PromoteDevices(d, from, to))
  {
    var e := PromoteDevices(d, from, to);
    forall x | x in e
      ensures Rooted(e, x)
    {
      if x == to {
        PromotedIsRooted(d, from, to);
      } else {
        OthersAreRooted(d, from, to, x);
      }
    }
  }

  lemma PromotionKeepsFit(d: Devices, e: Edge, from: string, to: string)
    requires ManualFits(d, e) && from in d && from != "" && to != "" && (to in d ==> d[to].parent == "")
    ensures ManualFits(PromoteDevices(d, from, to), PromoteEdge(e, from, to))
    ensures e.origin == Manual ==> e.target != to
  {
  }

  lemma PromotionKeepsManual(d: Devices, edges: seq<Edge>, from: string, to: string, x: string)
    requires ManualMirrors(d, edges) && from in d && from != to
    requires x in PromoteDevices(d, from, to) && PromoteDevices(d, from, to)[x].parent != ""
    requires from != ""
    ensures HasManual(PromoteEdges(edges, from, to), x)
  {
    var y := if x == to then from else x;
    var i := ManualEdgeOf(d, edges, y);
    assert PromoteEdges(edges, from, to)[i] == PromoteEdge(edges[i], from, to);
    hide PromoteEdges, ManualMirrors;
  }

  lemma PromotionKeepsOnePerChild(edges: seq<Edge>, from: string, to: string)
    requires OneManualPerChild(edges)
    requires forall i :: 0 <= i < |edges| && edges[i].origin == Manual ==> edges[i].target != to
    ensures OneManualPerChild(PromoteEdges(edges, from, to))
  {
    hide PromoteEdges;
  }

  /** An orphaned identity has no manual edge, so the promoted device's is the only one. */
  lemma PromotionKeepsMirror(d: Devices, edges: seq<Edge>, from: string, to: string)
    requires Forest(d) && ManualMirrors(d, edges) && from in d && to != "" && from != to
    requires to in d ==> d[to].parent == ""
    ensures ManualMirrors(PromoteDevices(d, from, to), PromoteEdges(edges, from, to))
  {
    hide Forest, PromoteDevices, PromoteEdge, PromoteEdges, ManualFits, HasManual, OneManualPerChild;
    NamedDevices(d);
    var e, after := PromoteDevices(d, from, to), PromoteEdges(edges, from, to);
    forall i | 0 <= i < |edges|
      ensures ManualFits(e, after[i]) && (edges[i].origin == Manual ==> edges[i].target != to)
    {
      PromotionKeepsFit(d, edges[i], from, to);
    }
    forall x | x in e && e[x].parent != ""
      ensures HasManual(after, x)
    {
      PromotionKeepsManual(d, edges, from, to, x);
    }
    PromotionKeepsOnePerChild(edges, from, to);
  }

  lemma NamedDevices(d: Devices)
    requires Forest(d)
    ensures "" !in d
  {
  }

  lemma ManualEdgeOf(d: Devices, edges: seq<Edge>, x: string) returns (i: nat)
    requires ManualMirrors(d, edges) && x in d && d[x].parent != ""
    ensures i < |edges| && edges[i].origin == Manual && edges[i].target == x
  {
    i :| 0 <= i < |edges| && edges[i].origin == Manual && edges[i].target == x;
  }

  lemma SafePromotionKeepsGraph(d: Devices, edges: seq<Edge>, from: string, to: string)
    requires WellFormed(d, edges) && from in d && to != "" && from != to && SafeTarget(d, from, to)
    ensures WellFormed(PromoteDevices(d, from, to), PromoteEdges(edges, from, to))
  {
    PromotionKeepsForest(d, from, to);
    PromotionKeepsMirror(d, edges, from, to);
  }

  /******* Every other promotion breaks it *******/

  /** The replaced identity had a parent: its manual edge survives and fits nothing. */
  lemma ReplacedParentBreaksMirror(d: Devices, edges: seq<Edge>, from: string, to: string)
    requires WellFormed(d, edges) && from in d && to in d && to != "" && from != to
    requires d[to].parent != ""
    ensures !ManualMirrors(PromoteDevices(d, from, to), PromoteEdges(edges, from, to))
  {
    hide Forest, PromoteDevices, PromoteEdge, PromoteEdges, ManualMirrors;
    NamedDevices(d);
    var i := ManualEdgeOf(d, edges, to);
    if d[from].parent != "" {
      var j := ManualEdgeOf(d, edges, from);
      TwoForOneChild(d, edges, from, to, i, j);
    } else {
      StrayEdgeStays(d, edges, from, to, i);
    }
  }

  lemma TwoForOneChild(d: Devices, edges: seq<Edge>, from: string, to: string, i: nat, j: nat)
    requires from in d && from != to && i < |edges| && j < |edges|
    requires edges[i].origin == Manual && edges[i].target == to && edges[j].origin == Manual && edges[j].target == from
    ensures !ManualMirrors(PromoteDevices(d, from, to), PromoteEdges(edges, from, to))
  {
    var after := PromoteEdges(edges, from, to);
    assert after[i].target == after[j].target && i != j;
    hide PromoteDevices, PromoteEdges, ManualFits, HasManual;
    assert !OneManualPerChild(after);
  }

  lemma StrayEdgeStays(d: Devices, edges: seq<Edge>, from: string, to: string, i: nat)
    requires from in d && from != "" && d[from].parent == "" && from != to && i < |edges|
    requires edges[i].origin == Manual && edges[i].target == to
    ensures !ManualMirrors(PromoteDevices(d, from, to), PromoteEdges(edges, from, to))
  {
    assert !ManualFits(PromoteDevices(d, from, to), PromoteEdges(edges, from, to)[i]);
    hide PromoteDevices, PromoteEdges, ManualFits, HasManual, OneManualPerChild;
  }

  /** The replaced identity lay above the promoted device: the walk from it closes up. */
  lemma ReplacedAncestorMakesCycle(d: Devices, from: string, to: string)
    requires Forest(d) && from in d && to in d && to != "" && from != to && Ancestor(d, from, to)
    ensures !Rooted(PromoteDevices(d, from, to), to)
  {
    var e := PromoteDevices(d, from, to);
    var k: nat :| k >= 1 && Up(d, from, k) == to;
    var first := FirstMeeting(d, from, to, k);
    RenamedWalk(d, from, to, from, first);
    assert Up(e, to, first) == to;
    if end: nat :| Up(e, to, end) == "" {
      WalkRepeats(e, to, 0, first, end);
    }
  }

  /** So the graph stays well formed exactly when the identity promoted to is new, or
      stands alone and does not lie above the promoted device. */
  lemma PromotionKeepsGraphExactly(d: Devices, edges: seq<Edge>, from: string, to: string)
    requires WellFormed(d, edges) && from in d && to != "" && from != to
    ensures WellFormed(PromoteDevices(d, from, to), PromoteEdges(edges, from, to)) <==> SafeTarget(d, from, to)
  {
    if SafeTarget(d, from, to) {
      SafePromotionKeepsGraph(d, edges, from, to);
    } else if d[to].parent != "" {
      ReplacedParentBreaksMirror(d, edges, from, to);
    } else {
      ReplacedAncestorMakesCycle(d, from, to);
    }
  }
}
