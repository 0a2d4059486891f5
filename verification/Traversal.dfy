/**
 The order in which a group is walked: breadth-first from its roots, restarting at the first member
 left whenever nobody waits.
 */
module Traversal {
  import opened Common
  import opened Layout

  predicate Linked(edges: seq<Edge>, a: string, b: string)
    ensures Linked(edges, a, b) <==> exists e :: e in edges && {e.source, e.target} == {a, b}
  {
    exists e :: e in edges && ((e.source == a && e.target == b) || (e.source == b && e.target == a))
  }

  /** A walk starts from the coordinators and from the devices that an edge enters from outside. */
  predicate IsRoot(members: seq<Device>, edges: seq<Edge>, d: Device)
    ensures IsRoot(members, edges, d) <==> d.kind == Coordinator || exists e :: e in edges && e.target == d.id && !Mentioned(members, e.source)
  {
    assert forall id :: Mentioned(members, id) <==> id in Ids(members);
    d.kind == Coordinator || exists e :: e in edges && e.target == d.id && e.source !in Ids(members)
  }

  ghost predicate Mentioned(members: seq<Device>, id: string) {
    exists i :: 0 <= i < |members| && members[i].id == id
  }

  /** The members linked to `id`, in member order and each once. Naming one twice
      would not matter: the traversal drops every repeat when it is taken off the queue. */
  function Neighbours(members: seq<Device>, edges: seq<Edge>, id: string): (ids: seq<string>)
    ensures forall x :: x in ids <==> x in Ids(members) && Linked(edges, id, x)
  {
    var linked := Where(members, (d: Device) => Linked(edges, id, d.id));
    var ids := Ids(linked);
    assert forall d :: d in members ==> d.id in Ids(members) by {
      forall d | d in members
        ensures d.id in Ids(members)
      {
        var i :| 0 <= i < |members| && members[i] == d;
        assert Ids(members)[i] == d.id;
      }
    }
    assert forall x :: x in ids <==> x in Ids(members) && Linked(edges, id, x) by {
      forall x | x in ids
        ensures x in Ids(members) && Linked(edges, id, x)
      {
        var i :| 0 <= i < |ids| && ids[i] == x;
        assert linked[i] in linked;
      }
      forall x | x in Ids(members) && Linked(edges, id, x)
        ensures x in ids
      {
        var i :| 0 <= i < |members| && Ids(members)[i] == x;
        assert members[i] in linked;
        var j :| 0 <= j < |linked| && linked[j] == members[i];
        assert ids[j] == x;
      }
    }
    ids
  }

  /** Whether some device already placed is linked to `id`. */
  ghost predicate Leads(edges: seq<Edge>, order: seq<Device>, id: string) {
    exists j :: 0 <= j < |order| && Linked(edges, order[j].id, id)
  }

  /******* Turns *******/

  /** `x` stands before `y` among the members. */
  ghost predicate Earlier(members: seq<Device>, x: string, y: string) {
    exists i, j :: 0 <= i < j < |members| && members[i].id == x && members[j].id == y
  }

  /** An earlier turn, or the same and an earlier member. */
  ghost predicate Before(members: seq<Device>, t: int, x: string, u: int, y: string) {
    t < u || (t == u && Earlier(members, x, y))
  }

  /** The first device linked to the one at `k` stands at `j`. */
  ghost predicate FirstLink(edges: seq<Edge>, order: seq<Device>, k: int, j: int) {
    && 0 <= j < k < |order| && Linked(edges, order[j].id, order[k].id)
    && forall i :: 0 <= i < j ==> !Linked(edges, order[i].id, order[k].id)
  }

  /** Of the members not placed before `k`, the one at `k` is the first. */
  ghost predicate FirstLeft(members: seq<Device>, order: seq<Device>, k: nat)
    requires k < |order|
  {
    forall x :: x in members && x !in order[..k] && x != order[k] ==> Earlier(members, order[k].id, x.id)
  }

  /** The turn the device at `k` comes in. Roots have the first turn; after that each device has one for
      those it is the first to be linked to, and one before it in case nobody led to it. */
  ghost predicate TurnOf(members: seq<Device>, edges: seq<Edge>, order: seq<Device>, k: nat, turn: int)
    requires k < |order|
  {
    if IsRoot(members, edges, order[k]) then turn == 0
    else if Leads(edges, order[..k], order[k].id) then exists j :: FirstLink(edges, order, k, j) && turn == 2 * j + 2
    else turn == 2 * k + 1 && FirstLeft(members, order, k)
  }

  ghost predicate InTurns(members: seq<Device>, order: seq<Device>, turns: seq<int>) {
    && |turns| == |order|
    && forall i, j :: 0 <= i < j < |order| ==> Before(members, turns[i], order[i].id, turns[j], order[j].id)
  }

  ghost predicate Turns(members: seq<Device>, edges: seq<Edge>, order: seq<Device>, turns: seq<int>) {
    && InTurns(members, order, turns)
    && forall k :: 0 <= k < |order| ==> TurnOf(members, edges, order, k, turns[k]) && turns[k] <= 2 * k + 1
  }

  /** The members walked breadth-first: turn by turn, and within a turn in their own order. */
  ghost predicate Walked(members: seq<Device>, edges: seq<Edge>, order: seq<Device>) {
    && multiset(order) == multiset(members)
    && exists turns :: Turns(members, edges, order, turns)
  }

  /******* The queue *******/

  /** Whether one of the first `n` devices is linked to `id`, or it is a root, and the turn that gives it. */
  ghost predicate Called(members: seq<Device>, edges: seq<Edge>, order: seq<Device>, n: int, id: string, turn: int) {
    || (turn == 0 && exists d :: d in members && d.id == id && IsRoot(members, edges, d))
    || CalledBy(edges, order, n, id, turn)
  }

  ghost predicate CalledBy(edges: seq<Edge>, order: seq<Device>, n: int, id: string, turn: int) {
    exists j :: 0 <= j < n && j < |order| && turn == 2 * j + 2 && Linked(edges, order[j].id, id)
  }

  ghost predicate InQueue(queue: seq<string>, calls: seq<int>, id: string, turn: int) {
    exists p :: 0 <= p < |queue| && p < |calls| && queue[p] == id && calls[p] == turn
  }

  ghost predicate QueueInTurns(members: seq<Device>, queue: seq<string>, calls: seq<int>) {
    && |calls| == |queue|
    && forall p, q :: 0 <= p < q < |queue| ==> Before(members, calls[p], queue[p], calls[q], queue[q])
  }

  /** The queue holds, in order, the turns the first `n` devices gave; those of everybody left are there, and
      all come after what has been placed. */
  ghost predicate Waiting(members: seq<Device>, edges: seq<Edge>, order: seq<Device>, turns: seq<int>, n: nat,
                          queue: seq<string>, calls: seq<int>) {
    && QueueInTurns(members, queue, calls)
    && |turns| == |order|
    && (forall p :: 0 <= p < |queue| ==> Called(members, edges, order, n, queue[p], calls[p]) && queue[p] in Ids(members))
    && (forall k, p :: 0 <= k < |order| && 0 <= p < |queue| ==> Before(members, turns[k], order[k].id, calls[p], queue[p]))
    && (forall d, turn :: d in members && d !in order && Called(members, edges, order, n, d.id, turn) ==>
          InQueue(queue, calls, d.id, turn))
  }

  ghost predicate SeenIsPlaced(order: seq<Device>, seen: set<string>) {
    forall x :: x in seen <==> exists i :: 0 <= i < |order| && order[i].id == x
  }

  function Unseen(ids: seq<string>, seen: set<string>): (rest: seq<string>)
    ensures forall x :: x in rest <==> x in ids && x !in seen
  {
    if ids == [] then []
    else (if ids[0] in seen then [] else [ids[0]]) + Unseen(ids[1..], seen)
  }

  lemma UnplacedMemberExists(members: seq<Device>, order: seq<Device>, seen: set<string>)
    requires DistinctIds(members) && |order| < |members|
    requires forall d :: d in order ==> d in members
    requires SeenIsPlaced(order, seen)
    ensures exists d :: d in members && d.id !in seen
  {
    if forall d :: d in members ==> d.id in seen {
      forall d | d in members
        ensures d in order
      {
        SeenMemberIsPlaced(members, order, seen, d);
      }
      DistinctSubsetIsShorter(members, order);
    }
  }

  lemma SeenMemberIsPlaced(members: seq<Device>, order: seq<Device>, seen: set<string>, d: Device)
    requires DistinctIds(members) && d in members && (forall x :: x in order ==> x in members)
    requires SeenIsPlaced(order, seen) && d.id in seen
    ensures d in order
  {
    var i :| 0 <= i < |order| && order[i].id == d.id;
    SameIdSameDevice(members, d, order[i]);
  }

  lemma ListedIsEarlier(members: seq<Device>, listed: seq<Device>, p: nat, q: nat)
    requires ListedInOrder(members, listed) && p < q < |listed| && forall d :: d in listed ==> d in members
    ensures Earlier(members, listed[p].id, listed[q].id)
  {
    assert listed[p] in listed && listed[q] in listed;
    var a :| 0 <= a < |members| && members[a] == listed[p];
    var b :| 0 <= b < |members| && members[b] == listed[q];
    assert a < b;
  }

  /** The ids come in the members' order. */
  ghost predicate InMemberOrder(members: seq<Device>, ids: seq<string>) {
    forall p, q :: 0 <= p < q < |ids| ==> Earlier(members, ids[p], ids[q])
  }

  lemma FoundInMemberOrder(members: seq<Device>, p: Device -> bool)
    requires DistinctIds(members)
    ensures InMemberOrder(members, Ids(Where(members, p)))
  {
    var found := Where(members, p);
    WhereKeepsOrder(members, p);
    hide Earlier, ListedInOrder;
    forall i, j | 0 <= i < j < |found|
      ensures Earlier(members, Ids(found)[i], Ids(found)[j])
    {
      ListedIsEarlier(members, found, i, j);
    }
  }

  lemma {:induction false} UnseenInMemberOrder(members: seq<Device>, ids: seq<string>, seen: set<string>)
    requires InMemberOrder(members, ids)
    ensures InMemberOrder(members, Unseen(ids, seen))
  {
    hide Earlier;
    if ids != [] {
      UnseenInMemberOrder(members, ids[1..], seen);
      var rest := Unseen(ids[1..], seen);
      forall q | 0 <= q < |rest|
        ensures Earlier(members, ids[0], rest[q])
      {
        assert rest[q] in ids[1..];
      }
    }
  }

  lemma RootsWait(members: seq<Device>, edges: seq<Edge>, queue: seq<string>)
    requires DistinctIds(members)
    requires queue == Ids(Where(members, (d: Device) => IsRoot(members, edges, d)))
    ensures Waiting(members, edges, [], [], 0, queue, seq(|queue|, _ => 0))
  {
    var calls := seq(|queue|, _ => 0);
    FoundInMemberOrder(members, (d: Device) => IsRoot(members, edges, d));
    RootsAreCalled(members, edges);
    hide IsRoot, Earlier, Ids, Where;
    forall d, turn | d in members && Called(members, edges, [], 0, d.id, turn)
      ensures InQueue(queue, calls, d.id, turn)
    {
      var r :| r in members && r.id == d.id && IsRoot(members, edges, r);
      var p :| 0 <= p < |queue| && queue[p] == r.id;
      assert calls[p] == turn;
    }
  }

  lemma RootsAreCalled(members: seq<Device>, edges: seq<Edge>)
    ensures var roots := Ids(Where(members, (d: Device) => IsRoot(members, edges, d)));
            && (forall p :: 0 <= p < |roots| ==> Called(members, edges, [], 0, roots[p], 0) && roots[p] in Ids(members))
            && (forall d :: d in members && IsRoot(members, edges, d) ==> d.id in roots)
  {
    hide IsRoot;
    var roots := Where(members, (d: Device) => IsRoot(members, edges, d));
    forall p | 0 <= p < |roots|
      ensures Called(members, edges, [], 0, roots[p].id, 0) && roots[p].id in Ids(members)
    {
      assert roots[p] in roots;
      IdIn(members, roots[p]);
    }
    forall d | d in roots
      ensures d.id in Ids(roots)
    {
      IdIn(roots, d);
    }
  }

  /** A queued id whose device is placed is passed over. */
  lemma SkipWaits(members: seq<Device>, edges: seq<Edge>, order: seq<Device>, turns: seq<int>, n: nat,
                  queue: seq<string>, calls: seq<int>, placed: Device)
    requires DistinctIds(members) && Waiting(members, edges, order, turns, n, queue, calls) && queue != []
    requires placed in order && placed in members && placed.id == queue[0]
    ensures Waiting(members, edges, order, turns, n, queue[1..], calls[1..])
  {
    hide Called, Before, Ids;
    forall d, turn | d in members && d !in order && Called(members, edges, order, n, d.id, turn)
      ensures InQueue(queue[1..], calls[1..], d.id, turn)
    {
      TailHolds(members, queue, calls, d, turn, placed);
    }
  }

  lemma TailHolds(members: seq<Device>, queue: seq<string>, calls: seq<int>, d: Device, turn: int, head: Device)
    requires DistinctIds(members) && d in members && head in members && d != head && queue != [] && head.id == queue[0]
    requires |calls| == |queue| && InQueue(queue, calls, d.id, turn)
    ensures InQueue(queue[1..], calls[1..], d.id, turn)
  {
    var p :| 0 <= p < |queue| && queue[p] == d.id && calls[p] == turn;
    if p == 0 { SameIdSameDevice(members, d, head); }
    assert queue[1..][p - 1] == d.id && calls[1..][p - 1] == turn;
  }

  lemma CalledIsLed(members: seq<Device>, edges: seq<Edge>, order: seq<Device>, d: Device, turn: int)
    requires DistinctIds(members) && d in members && Called(members, edges, order, |order|, d.id, turn)
    ensures turn == 0 ==> IsRoot(members, edges, d)
    ensures turn != 0 ==> Leads(edges, order, d.id)
  {
    if turn == 0 {
      var r :| r in members && r.id == d.id && IsRoot(members, edges, r);
      SameIdSameDevice(members, r, d);
    }
  }

  lemma LinkedIsCalled(members: seq<Device>, edges: seq<Edge>, order: seq<Device>, j: nat, id: string)
    requires j < |order| && Linked(edges, order[j].id, id)
    ensures Called(members, edges, order, |order|, id, 2 * j + 2)
  {
    assert CalledBy(edges, order, |order|, id, 2 * j + 2);
  }

  lemma RootIsCalled(members: seq<Device>, edges: seq<Edge>, order: seq<Device>, d: Device)
    requires d in members && IsRoot(members, edges, d)
    ensures Called(members, edges, order, |order|, d.id, 0)
  {
  }

  /** The head of the queue comes in the turn it was called in. */
  lemma HeadsTurn(members: seq<Device>, edges: seq<Edge>, order: seq<Device>, turns: seq<int>,
                  queue: seq<string>, calls: seq<int>, d: Device)
    requires DistinctIds(members) && Waiting(members, edges, order, turns, |order|, queue, calls) && queue != []
    requires d in members && d !in order && d.id == queue[0]
    ensures TurnOf(members, edges, order + [d], |order|, calls[0]) && calls[0] <= 2 * |order| + 1
  {
    var longer, n, turn := order + [d], |order|, calls[0];
    forall t | Called(members, edges, order, n, d.id, t)
      ensures turn <= t
    {
      assert InQueue(queue, calls, d.id, t);
    }
    assert Called(members, edges, order, n, d.id, turn);
    CalledIsLed(members, edges, order, d, turn);
    assert longer[..n] == order && longer[n] == d && forall j :: 0 <= j < n ==> longer[j] == order[j];
    hide Waiting, IsRoot;
    if IsRoot(members, edges, d) {
      RootIsCalled(members, edges, order, d);
    } else {
      var j :| 0 <= j < n && turn == 2 * j + 2 && Linked(edges, order[j].id, d.id);
      forall i | 0 <= i < j
        ensures !Linked(edges, longer[i].id, d.id)
      {
        if Linked(edges, order[i].id, d.id) {
          LinkedIsCalled(members, edges, order, i, d.id);
        }
      }
      assert FirstLink(edges, longer, n, j);
    }
  }

  /** With nobody waiting, the first member left has a turn of its own. */
  lemma FirstLeftsTurn(members: seq<Device>, edges: seq<Edge>, order: seq<Device>, turns: seq<int>, d: Device)
    requires Waiting(members, edges, order, turns, |order|, [], []) && d in members && d !in order
    requires forall x :: x in members && x !in order && x != d ==> Earlier(members, d.id, x.id)
    ensures TurnOf(members, edges, order + [d], |order|, 2 * |order| + 1)
  {
    var longer, n := order + [d], |order|;
    assert longer[..n] == order && longer[n] == d;
    if IsRoot(members, edges, d) { RootIsCalled(members, edges, order, d); }
    if j :| 0 <= j < n && Linked(edges, order[j].id, d.id) {
      LinkedIsCalled(members, edges, order, j, d.id);
    }
  }

  lemma TurnStays(members: seq<Device>, edges: seq<Edge>, order: seq<Device>, d: Device, k: nat, turn: int)
    requires k < |order| && TurnOf(members, edges, order, k, turn)
    ensures TurnOf(members, edges, order + [d], k, turn)
  {
    var longer := order + [d];
    assert longer[..k] == order[..k] && forall j :: 0 <= j <= k ==> longer[j] == order[j];
    hide IsRoot, Leads, Earlier;
    if j :| FirstLink(edges, order, k, j) && turn == 2 * j + 2 { assert FirstLink(edges, longer, k, j); }
  }

  lemma PlacedInTurn(members: seq<Device>, edges: seq<Edge>, order: seq<Device>, turns: seq<int>, d: Device, turn: int)
    requires Turns(members, edges, order, turns) && TurnOf(members, edges, order + [d], |order|, turn) && turn <= 2 * |order| + 1
    requires forall k :: 0 <= k < |order| ==> Before(members, turns[k], order[k].id, turn, d.id)
    ensures Turns(members, edges, order + [d], turns + [turn])
  {
    hide Before, TurnOf;
    forall k | 0 <= k < |order|
      ensures TurnOf(members, edges, order + [d], k, turns[k])
    {
      TurnStays(members, edges, order, d, k, turns[k]);
    }
  }

  lemma CalledStays(members: seq<Device>, edges: seq<Edge>, order: seq<Device>, d: Device, n: nat, id: string, turn: int)
    requires n <= |order|
    ensures Called(members, edges, order + [d], n, id, turn) <==> Called(members, edges, order, n, id, turn)
  {
    var longer := order + [d];
    assert forall j :: 0 <= j < n ==> longer[j] == order[j];
    hide Linked, IsRoot;
  }

  /** Placing the head of the queue leaves the others waiting. */
  lemma HeadLeaves(members: seq<Device>, edges: seq<Edge>, order: seq<Device>, turns: seq<int>,
                   queue: seq<string>, calls: seq<int>, d: Device)
    requires DistinctIds(members) && Waiting(members, edges, order, turns, |order|, queue, calls) && queue != []
    requires d in members && d.id == queue[0]
    ensures Waiting(members, edges, order + [d], turns + [calls[0]], |order|, queue[1..], calls[1..])
  {
    var longer, ts, n := order + [d], turns + [calls[0]], |order|;
    hide Called, Before, Ids, DistinctIds;
    forall id, turn
      ensures Called(members, edges, longer, n, id, turn) <==> Called(members, edges, order, n, id, turn)
    {
      CalledStays(members, edges, order, d, n, id, turn);
    }
    forall x, turn | x in members && x !in longer && Called(members, edges, longer, n, x.id, turn)
      ensures InQueue(queue[1..], calls[1..], x.id, turn)
    {
      assert x != d && x !in order;
      TailHolds(members, queue, calls, x, turn, d);
    }
  }

  lemma LeftStarts(members: seq<Device>, edges: seq<Edge>, order: seq<Device>, turns: seq<int>, d: Device, turn: int)
    requires Waiting(members, edges, order, turns, |order|, [], [])
    ensures Waiting(members, edges, order + [d], turns + [turn], |order|, [], [])
  {
    hide Called, Before, Ids;
    forall id, t
      ensures Called(members, edges, order + [d], |order|, id, t) <==> Called(members, edges, order, |order|, id, t)
    {
      CalledStays(members, edges, order, d, |order|, id, t);
    }
  }

  lemma CallsAreBounded(members: seq<Device>, edges: seq<Edge>, order: seq<Device>, n: nat, id: string, turn: int)
    requires Called(members, edges, order, n, id, turn)
    ensures turn <= 2 * n
  {
  }

  lemma NewCalls(members: seq<Device>, edges: seq<Edge>, id: string, seen: set<string>)
    requires DistinctIds(members)
    ensures InMemberOrder(members, Unseen(Neighbours(members, edges, id), seen))
  {
    FoundInMemberOrder(members, (d: Device) => Linked(edges, id, d.id));
    UnseenInMemberOrder(members, Neighbours(members, edges, id), seen);
  }

  lemma QueueGrows(members: seq<Device>, queue: seq<string>, calls: seq<int>, rest: seq<string>, turn: int)
    requires QueueInTurns(members, queue, calls) && InMemberOrder(members, rest)
    requires forall p :: 0 <= p < |queue| ==> calls[p] < turn
    ensures QueueInTurns(members, queue + rest, calls + seq(|rest|, _ => turn))
  {
    hide Earlier;
  }

  /** The last device placed calls those linked to it, and they wait behind the others. */
  lemma CallsMade(members: seq<Device>, edges: seq<Edge>, order: seq<Device>, turns: seq<int>,
                  queue: seq<string>, calls: seq<int>, d: Device, seen: set<string>)
    requires DistinctIds(members) && (forall x :: x in order ==> x in members)
    requires order != [] && d == order[|order| - 1] && SeenIsPlaced(order, seen)
    requires Turns(members, edges, order, turns) && Waiting(members, edges, order, turns, |order| - 1, queue, calls)
    ensures var rest := Unseen(Neighbours(members, edges, d.id), seen);
            Waiting(members, edges, order, turns, |order|, queue + rest, calls + seq(|rest|, _ => 2 * |order|))
  {
    var rest, n := Unseen(Neighbours(members, edges, d.id), seen), |order|;
    var more := calls + seq(|rest|, _ => 2 * n);
    QueueStaysInTurns(members, edges, order, turns, queue, calls, d, seen);
    NewAreCalled(members, edges, order, turns, queue, calls, d, seen);
    assert |calls| == |queue| && |turns| == |order|;
    forall x, turn | x in members && x !in order && Called(members, edges, order, n, x.id, turn)
      ensures InQueue(queue + rest, more, x.id, turn)
    {
      CallIsQueued(members, edges, order, n, queue, calls, rest, seen, x, turn);
    }
    hide *;
    WaitingParts(members, edges, order, turns, n, queue + rest, more);
  }

  lemma WaitingParts(members: seq<Device>, edges: seq<Edge>, order: seq<Device>, turns: seq<int>, n: nat,
                     queue: seq<string>, calls: seq<int>)
    requires QueueInTurns(members, queue, calls) && |calls| == |queue| && |turns| == |order|
    requires forall p :: 0 <= p < |queue| ==> Called(members, edges, order, n, queue[p], calls[p]) && queue[p] in Ids(members)
    requires forall k, p :: 0 <= k < |order| && 0 <= p < |queue| ==> Before(members, turns[k], order[k].id, calls[p], queue[p])
    requires forall d, turn :: d in members && d !in order && Called(members, edges, order, n, d.id, turn) ==>
               InQueue(queue, calls, d.id, turn)
    ensures Waiting(members, edges, order, turns, n, queue, calls)
  {
    hide QueueInTurns, Called, Before, InQueue, Ids;
  }

  lemma QueueStaysInTurns(members: seq<Device>, edges: seq<Edge>, order: seq<Device>, turns: seq<int>,
                          queue: seq<string>, calls: seq<int>, d: Device, seen: set<string>)
    requires DistinctIds(members) && order != []
    requires Waiting(members, edges, order, turns, |order| - 1, queue, calls)
    ensures var rest := Unseen(Neighbours(members, edges, d.id), seen);
            QueueInTurns(members, queue + rest, calls + seq(|rest|, _ => 2 * |order|))
  {
    NewCalls(members, edges, d.id, seen);
    forall p | 0 <= p < |queue|
      ensures calls[p] < 2 * |order|
    {
      CallsAreBounded(members, edges, order, |order| - 1, queue[p], calls[p]);
    }
    hide Neighbours, Unseen, Called, InMemberOrder, Ids;
    QueueGrows(members, queue, calls, Unseen(Neighbours(members, edges, d.id), seen), 2 * |order|);
  }

  lemma NewAreCalled(members: seq<Device>, edges: seq<Edge>, order: seq<Device>, turns: seq<int>,
                     queue: seq<string>, calls: seq<int>, d: Device, seen: set<string>)
    requires order != [] && d == order[|order| - 1]
    requires Turns(members, edges, order, turns) && Waiting(members, edges, order, turns, |order| - 1, queue, calls)
    ensures var rest, n := Unseen(Neighbours(members, edges, d.id), seen), |order|;
            var longer, more := queue + rest, calls + seq(|rest|, _ => 2 * n);
            && (forall p :: 0 <= p < |longer| ==> Called(members, edges, order, n, longer[p], more[p]) && longer[p] in Ids(members))
            && (forall k, p :: 0 <= k < n && 0 <= p < |longer| ==> Before(members, turns[k], order[k].id, more[p], longer[p]))
  {
    var rest, n := Unseen(Neighbours(members, edges, d.id), seen), |order|;
    var longer, more := queue + rest, calls + seq(|rest|, _ => 2 * n);
    hide Neighbours, Unseen, QueueInTurns, Called, TurnOf, InTurns, Ids, Linked, InQueue, Earlier;
    assert forall p :: |queue| <= p < |longer| ==> longer[p] in rest;
    forall p | 0 <= p < |longer|
      ensures Called(members, edges, order, n, longer[p], more[p])
    {
      CalledOneMore(members, edges, order, n, longer[p], more[p]);
    }
  }

  lemma CallIsQueued(members: seq<Device>, edges: seq<Edge>, order: seq<Device>, n: nat, queue: seq<string>, calls: seq<int>,
                     rest: seq<string>, seen: set<string>, x: Device, turn: int)
    requires DistinctIds(members) && (forall y :: y in order ==> y in members) && SeenIsPlaced(order, seen)
    requires 0 < n <= |order| && rest == Unseen(Neighbours(members, edges, order[n - 1].id), seen) && |calls| == |queue|
    requires x in members && x !in order && Called(members, edges, order, n, x.id, turn)
    requires Called(members, edges, order, n - 1, x.id, turn) ==> InQueue(queue, calls, x.id, turn)
    ensures InQueue(queue + rest, calls + seq(|rest|, _ => 2 * n), x.id, turn)
  {
    CalledOneMore(members, edges, order, n, x.id, turn);
    hide Neighbours, Unseen, Called, Ids, SeenIsPlaced, DistinctIds, Linked, InQueue;
    if Called(members, edges, order, n - 1, x.id, turn) {
      InLongerQueue(queue, calls, rest, 2 * n, x.id, turn);
    } else {
      IdIn(members, x);
      NotPlacedNotSeen(members, order, seen, x);
      BehindQueue(queue, calls, rest, 2 * n, x.id);
    }
  }

  lemma NotPlacedNotSeen(members: seq<Device>, order: seq<Device>, seen: set<string>, x: Device)
    requires DistinctIds(members) && x in members && (forall y :: y in order ==> y in members)
    requires SeenIsPlaced(order, seen) && x !in order
    ensures x.id !in seen
  {
    if x.id in seen { SeenMemberIsPlaced(members, order, seen, x); }
  }

  lemma BehindQueue(queue: seq<string>, calls: seq<int>, rest: seq<string>, turn: int, id: string)
    requires |calls| == |queue| && id in rest
    ensures InQueue(queue + rest, calls + seq(|rest|, _ => turn), id, turn)
  {
    var p :| 0 <= p < |rest| && rest[p] == id;
    assert (queue + rest)[|queue| + p] == id && (calls + seq(|rest|, _ => turn))[|queue| + p] == turn;
  }

  lemma InLongerQueue(queue: seq<string>, calls: seq<int>, rest: seq<string>, more: int, id: string, turn: int)
    requires |calls| == |queue| && InQueue(queue, calls, id, turn)
    ensures InQueue(queue + rest, calls + seq(|rest|, _ => more), id, turn)
  {
    var p :| 0 <= p < |queue| && queue[p] == id && calls[p] == turn;
    assert (queue + rest)[p] == id && (calls + seq(|rest|, _ => more))[p] == turn;
  }

  lemma CalledOneMore(members: seq<Device>, edges: seq<Edge>, order: seq<Device>, n: nat, id: string, turn: int)
    requires 0 < n <= |order|
    ensures Called(members, edges, order, n, id, turn) <==>
              Called(members, edges, order, n - 1, id, turn) || (turn == 2 * n && Linked(edges, order[n - 1].id, id))
  {
    hide Linked, IsRoot;
    if turn == 2 * n && Linked(edges, order[n - 1].id, id) { assert CalledBy(edges, order, n, id, turn); }
  }

  lemma FirstLeftIsFirst(members: seq<Device>, order: seq<Device>, seen: set<string>) returns (d: Device)
    requires DistinctIds(members) && |order| < |members| && (forall x :: x in order ==> x in members) && SeenIsPlaced(order, seen)
    ensures FirstWhere(members, (x: Device) => x.id !in seen) == Some(d) && d in members && d !in order
    ensures forall x :: x in members && x !in order && x != d ==> Earlier(members, d.id, x.id)
  {
    UnplacedMemberExists(members, order, seen);
    var i := FirstWhereIsFirst(members, (x: Device) => x.id !in seen);
    d := members[i];
    forall x | x in members && x !in order && x != d
      ensures Earlier(members, d.id, x.id)
    {
      var j :| 0 <= j < |members| && members[j] == x;
      NotPlacedNotSeen(members, order, seen, x);
      assert i < j;
    }
    assert forall k :: 0 <= k < |order| ==> order[k].id in seen;
  }

  lemma AllPlaced(members: seq<Device>, order: seq<Device>)
    requires DistinctIds(members) && DistinctIds(order) && |order| == |members|
    requires forall d :: d in order ==> d in members
    ensures multiset(order) == multiset(members)
  {
    forall d
      ensures multiset(order)[d] <= multiset(members)[d]
    {
      DistinctCountsOnce(order, d);
    }
    assert multiset(order) <= multiset(members);
    assert multiset(members) == multiset(order) + (multiset(members) - multiset(order));
    assert |multiset(order)| == |order| && |multiset(members)| == |members|;
    assert |multiset(members) - multiset(order)| == 0;
  }

  lemma PlacedIsSeen(order: seq<Device>, seen: set<string>, d: Device)
    requires SeenIsPlaced(order, seen)
    ensures SeenIsPlaced(order + [d], seen + {d.id})
  {
    var longer := order + [d];
    assert longer[|order|] == d;
    assert forall i :: 0 <= i < |order| ==> longer[i] == order[i];
  }

  lemma NobodyPlaced(members: seq<Device>, edges: seq<Edge>)
    ensures Turns(members, edges, [], []) && SeenIsPlaced([], {})
  {
  }

  /** The head of the queue, not placed yet, is the next to be. */
  lemma HeadComesNext(members: seq<Device>, edges: seq<Edge>, order: seq<Device>, turns: seq<int>,
                      queue: seq<string>, calls: seq<int>, d: Device)
    requires DistinctIds(members) && Turns(members, edges, order, turns)
    requires Waiting(members, edges, order, turns, |order|, queue, calls) && queue != []
    requires d in members && d !in order && d.id == queue[0]
    ensures Turns(members, edges, order + [d], turns + [calls[0]])
    ensures Waiting(members, edges, order + [d], turns + [calls[0]], |order|, queue[1..], calls[1..])
  {
    HeadsTurn(members, edges, order, turns, queue, calls, d);
    HeadLeaves(members, edges, order, turns, queue, calls, d);
    hide Turns, TurnOf, Called, DistinctIds;
    PlacedInTurn(members, edges, order, turns, d, calls[0]);
  }

  /** With nobody waiting, the first member left is. */
  lemma LeftComesNext(members: seq<Device>, edges: seq<Edge>, order: seq<Device>, turns: seq<int>, d: Device)
    requires Turns(members, edges, order, turns) && Waiting(members, edges, order, turns, |order|, [], [])
    requires d in members && d !in order && forall x :: x in members && x !in order && x != d ==> Earlier(members, d.id, x.id)
    ensures Turns(members, edges, order + [d], turns + [2 * |order| + 1])
    ensures Waiting(members, edges, order + [d], turns + [2 * |order| + 1], |order|, [], [])
  {
    FirstLeftsTurn(members, edges, order, turns, d);
    LeftStarts(members, edges, order, turns, d, 2 * |order| + 1);
    hide TurnOf, Waiting, Earlier;
    PlacedInTurn(members, edges, order, turns, d, 2 * |order| + 1);
  }

  lemma NotSeen(order: seq<Device>, seen: set<string>, d: Device)
    requires SeenIsPlaced(order, seen) && d.id !in seen
    ensures d !in order && forall i :: 0 <= i < |order| ==> order[i].id != d.id
  {
  }

  lemma WaitingAreMembers(members: seq<Device>, edges: seq<Edge>, order: seq<Device>, turns: seq<int>, n: nat,
                          queue: seq<string>, calls: seq<int>)
    requires Waiting(members, edges, order, turns, n, queue, calls)
    ensures |calls| == |queue|
    ensures queue != [] ==> exists d :: d in members && d.id == queue[0]
  {
    if queue != [] {
      var i :| 0 <= i < |members| && Ids(members)[i] == queue[0];
      assert members[i] in members;
    }
  }

  lemma PlacedOfSeen(order: seq<Device>, seen: set<string>, id: string) returns (d: Device)
    requires SeenIsPlaced(order, seen) && id in seen
    ensures d in order && d.id == id
  {
    var i :| 0 <= i < |order| && order[i].id == id;
    d := order[i];
  }

  /** Breadth-first from the roots, restarting at the first unplaced member whenever
      the queue runs dry. */
  method Traverse(members: seq<Device>, edges: seq<Edge>) returns (order: seq<Device>)
    requires DistinctIds(members)
    ensures Walked(members, edges, order) && DistinctIds(order)
  {
    hide Turns, Waiting, IsRoot, Neighbours, Unseen, SeenIsPlaced, Earlier;
    order := [];
    var seen: set<string> := {};
    var queue := Ids(Where(members, (d: Device) => IsRoot(members, edges, d)));
    ghost var turns: seq<int>, calls := [], seq(|queue|, _ => 0);
    RootsWait(members, edges, queue);
    NobodyPlaced(members, edges);
    while |order| < |members|
      invariant DistinctIds(order) && (forall d :: d in order ==> d in members) && SeenIsPlaced(order, seen)
      invariant Turns(members, edges, order, turns)
      invariant Waiting(members, edges, order, turns, |order|, queue, calls)
      decreases |members| - |order|, |queue|
    {
      var id: string;
      var later := [];
      WaitingAreMembers(members, edges, order, turns, |order|, queue, calls);
      if queue == [] {
        ghost var left := FirstLeftIsFirst(members, order, seen);
        id := FirstWhere(members, (d: Device) => d.id !in seen).value.id;
      } else {
        id, later := queue[0], queue[1..];
      }
      if id in seen {
        ghost var placed := PlacedOfSeen(order, seen, id);
        SkipWaits(members, edges, order, turns, |order|, queue, calls, placed);
        queue, calls := later, calls[1..];
      } else {
        var device := FirstWhere(members, (d: Device) => d.id == id).value;
        NotSeen(order, seen, device);
        if queue == [] {
          LeftComesNext(members, edges, order, turns, device);
          turns, calls := turns + [2 * |order| + 1], [];
        } else {
          HeadComesNext(members, edges, order, turns, queue, calls, device);
          turns, calls := turns + [calls[0]], calls[1..];
        }
        PlacedIsSeen(order, seen, device);
        seen := seen + {id};
        CallsMade(members, edges, order + [device], turns, later, calls, device, seen);
        calls := calls + seq(|Unseen(Neighbours(members, edges, id), seen)|, _ => 2 * (|order| + 1));
        order, queue := order + [device], later + Unseen(Neighbours(members, edges, id), seen);
      }
    }
    DistinctSubsetIsShorter(order, members);
    AllPlaced(members, order);
  }

  /******* There is one such walk *******/

  lemma EarlierOneWay(members: seq<Device>, x: string, y: string)
    requires DistinctIds(members)
    ensures !(Earlier(members, x, y) && Earlier(members, y, x))
  {
  }

  ghost predicate LedFirst(edges: seq<Edge>, before: seq<Device>, id: string, j: int) {
    0 <= j < |before| && Linked(edges, before[j].id, id) && forall i :: 0 <= i < j ==> !Linked(edges, before[i].id, id)
  }

  /** The turn of a device that is left when those in `before` are placed: known for a root and for a
      device one of them leads to, and still to come for any other. */
  ghost predicate Due(members: seq<Device>, edges: seq<Edge>, before: seq<Device>, d: Device, turn: int) {
    if IsRoot(members, edges, d) then turn == 0
    else if Leads(edges, before, d.id) then exists j :: LedFirst(edges, before, d.id, j) && turn == 2 * j + 2
    else turn > 2 * |before|
  }

  lemma DueOnce(members: seq<Device>, edges: seq<Edge>, before: seq<Device>, d: Device, t: int, u: int)
    requires Due(members, edges, before, d, t) && Due(members, edges, before, d, u)
    ensures t <= 2 * |before| ==> t == u
  {
    hide IsRoot, Linked;
  }

  lemma LinkLeads(edges: seq<Edge>, before: seq<Device>, j: nat, id: string)
    requires j < |before| && Linked(edges, before[j].id, id)
    ensures Leads(edges, before, id)
  {
  }

  lemma TurnIsDue(members: seq<Device>, edges: seq<Edge>, order: seq<Device>, k: nat, q: nat, turn: int)
    requires k <= q < |order| && TurnOf(members, edges, order, q, turn)
    ensures Due(members, edges, order[..k], order[q], turn)
  {
    hide IsRoot;
    if !IsRoot(members, edges, order[q]) {
      if Leads(edges, order[..k], order[q].id) {
        var i :| 0 <= i < |order[..k]| && Linked(edges, order[..k][i].id, order[q].id);
        LinkLeads(edges, order[..q], i, order[q].id);
        var j :| FirstLink(edges, order, q, j) && turn == 2 * j + 2;
        assert j <= i;
        assert LedFirst(edges, order[..k], order[q].id, j);
      } else if j :| FirstLink(edges, order, q, j) && turn == 2 * j + 2 {
        if j < k { LinkLeads(edges, order[..k], j, order[q].id); }
      }
    }
  }

  /** A device whose turn is not known when it comes is the first member left. */
  lemma LateTurnIsFirstLeft(members: seq<Device>, edges: seq<Edge>, order: seq<Device>, k: nat, turn: int)
    requires k < |order| && TurnOf(members, edges, order, k, turn) && turn > 2 * k
    ensures turn == 2 * k + 1 && FirstLeft(members, order, k)
  {
    hide IsRoot, Linked, Leads, FirstLeft;
  }

  /** Two walks that agree so far go on alike: else what each has next would have to come before the other. */
  lemma WalksDoNotPart(members: seq<Device>, edges: seq<Edge>, a: seq<Device>, b: seq<Device>, ta: seq<int>, tb: seq<int>, k: nat)
    requires DistinctIds(members) && DistinctIds(a) && DistinctIds(b) && multiset(a) == multiset(b) == multiset(members)
    requires Turns(members, edges, a, ta) && Turns(members, edges, b, tb)
    requires k < |a| && k < |b| && a[..k] == b[..k]
    ensures a[k] == b[k]
  {
    if a[k] != b[k] {
      assert a[k] in multiset(a) && b[k] in multiset(b);
      var p := PlacedLater(a, b, k);
      var q := PlacedLater(b, a, k);
      TurnsAreDue(members, edges, a, b, ta, tb, k, p, q);
      NextIsOne(members, edges, a, b, ta, tb, k);
      hide *;
      EarlierOneWay(members, a[k].id, b[k].id);
    }
  }

  lemma TurnsAreDue(members: seq<Device>, edges: seq<Edge>, a: seq<Device>, b: seq<Device>, ta: seq<int>, tb: seq<int>,
                    k: nat, p: nat, q: nat)
    requires Turns(members, edges, a, ta) && Turns(members, edges, b, tb)
    requires k < p < |a| && k < q < |b| && a[..k] == b[..k] && a[p] == b[k] && b[q] == a[k]
    ensures |ta| == |a| && |tb| == |b|
    ensures (ta[k] <= 2 * k || tb[q] <= 2 * k ==> ta[k] == tb[q]) && (tb[k] <= 2 * k || ta[p] <= 2 * k ==> tb[k] == ta[p])
    ensures Before(members, ta[k], a[k].id, ta[p], b[k].id) && Before(members, tb[k], b[k].id, tb[q], a[k].id)
  {
    TurnIsDue(members, edges, a, k, k, ta[k]);
    TurnIsDue(members, edges, a, k, p, ta[p]);
    TurnIsDue(members, edges, b, k, k, tb[k]);
    TurnIsDue(members, edges, b, k, q, tb[q]);
    DueOnce(members, edges, a[..k], a[k], ta[k], tb[q]);
    DueOnce(members, edges, a[..k], a[k], tb[q], ta[k]);
    DueOnce(members, edges, a[..k], b[k], tb[k], ta[p]);
    DueOnce(members, edges, a[..k], b[k], ta[p], tb[k]);
    hide TurnOf, Due, Earlier;
  }

  lemma NextIsOne(members: seq<Device>, edges: seq<Edge>, a: seq<Device>, b: seq<Device>, ta: seq<int>, tb: seq<int>, k: nat)
    requires Turns(members, edges, a, ta) && Turns(members, edges, b, tb)
    requires k < |a| && k < |b| && a[..k] == b[..k] && a[k] in members && b[k] in members && a[k] != b[k]
    requires b[k] !in a[..k] && a[k] !in b[..k]
    ensures ta[k] > 2 * k ==> Earlier(members, a[k].id, b[k].id)
    ensures tb[k] > 2 * k ==> Earlier(members, b[k].id, a[k].id)
  {
    if ta[k] > 2 * k { LateTurnIsFirstLeft(members, edges, a, k, ta[k]); }
    if tb[k] > 2 * k { LateTurnIsFirstLeft(members, edges, b, k, tb[k]); }
    hide TurnOf, Earlier, InTurns;
  }

  lemma PlacedLater(a: seq<Device>, b: seq<Device>, k: nat) returns (p: nat)
    requires multiset(a) == multiset(b) && DistinctIds(b) && k < |b| && k < |a| && a[..k] == b[..k] && a[k] != b[k]
    ensures k < p < |a| && a[p] == b[k] && b[k] !in a[..k]
  {
    assert b[k] in multiset(a);
    p :| 0 <= p < |a| && a[p] == b[k];
    assert forall i :: 0 <= i < k ==> a[..k][i] == b[i];
  }

  lemma {:induction false} WalksAgree(members: seq<Device>, edges: seq<Edge>, a: seq<Device>, b: seq<Device>, ta: seq<int>, tb: seq<int>, n: nat)
    requires DistinctIds(members) && DistinctIds(a) && DistinctIds(b)
    requires multiset(a) == multiset(members) && multiset(b) == multiset(members)
    requires Turns(members, edges, a, ta) && Turns(members, edges, b, tb) && n <= |a| && n <= |b|
    ensures a[..n] == b[..n]
  {
    hide *;
    if n > 0 {
      var k := n - 1;
      WalksAgree(members, edges, a, b, ta, tb, k);
      WalksDoNotPart(members, edges, a, b, ta, tb, k);
      assert a[..n] == a[..k] + [a[k]] && b[..n] == b[..k] + [b[k]];
    }
  }

  /** The members of a group are walked in one way only. */
  lemma WalkIsUnique(members: seq<Device>, edges: seq<Edge>, a: seq<Device>, b: seq<Device>)
    requires DistinctIds(members) && DistinctIds(a) && DistinctIds(b)
    requires Walked(members, edges, a) && Walked(members, edges, b)
    ensures a == b
  {
    hide Turns;
    var ta :| Turns(members, edges, a, ta);
    var tb :| Turns(members, edges, b, tb);
    assert |a| == |multiset(a)| == |multiset(b)| == |b|;
    WalksAgree(members, edges, a, b, ta, tb, |a|);
    assert a[..|a|] == a && b[..|b|] == b;
  }
}
