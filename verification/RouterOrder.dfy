/**
 The order of the Zigbee group: coordinators, then routers, then one end device for each router,
 then the others.
 */
module RouterOrder {
  import opened Common
  import opened Layout
  import opened Traversal

  function FirstIndex(s: seq<Device>, id: string): (i: nat)
    ensures i <= |s|
    ensures i < |s| ==> s[i].id == id
    ensures forall j :: 0 <= j < i ==> s[j].id != id
  {
    if s == [] || s[0].id == id then 0 else 1 + FirstIndex(s[1..], id)
  }

  /** Keep each device of `s[..n]` only where it first occurs. */
  function FirstOccurrences(s: seq<Device>, n: nat): (kept: seq<Device>)
    requires n <= |s|
  {
    if n == 0 then []
    else FirstOccurrences(s, n - 1) + (if FirstIndex(s, s[n - 1].id) == n - 1 then [s[n - 1]] else [])
  }

  predicate IsEndDevice(d: Device) { d.kind != Coordinator && d.kind != Router }

  function Samples(edges: seq<Edge>, order: seq<Device>, routers: seq<Device>): (samples: seq<Device>)
    ensures forall d :: d in samples ==> d in order && IsEndDevice(d)
    ensures forall d :: d in samples ==> exists r :: r in routers && Linked(edges, r.id, d.id)
  {
    if routers == [] then []
    else
      var sample := FirstWhere(order, (x: Device) => IsEndDevice(x) && Linked(edges, routers[0].id, x.id));
      var rest := Samples(edges, order, routers[1..]);
      assert forall d :: d in rest ==> exists r :: r in routers[1..] && r in routers && Linked(edges, r.id, d.id);
      if sample.None? then rest
      else
        assert routers[0] in routers && Linked(edges, routers[0].id, sample.value.id);
        [sample.value] + rest
  }

  function Prioritized(edges: seq<Edge>, order: seq<Device>): (shuffled: seq<Device>) {
    var routers := Where(order, (d: Device) => d.kind == Router);
    var coordinators := Where(order, (d: Device) => d.kind == Coordinator);
    var priority := coordinators + routers + Samples(edges, order, routers) + order;
    FirstOccurrences(priority, |priority|)
  }

  /** First indices along the kept list increase, and all lie below `n`. */
  ghost predicate Increasing(s: seq<Device>, kept: seq<Device>, n: nat) {
    && (forall i :: 0 <= i < |kept| ==> FirstIndex(s, kept[i].id) < n)
    && forall i, j :: 0 <= i < j < |kept| ==> FirstIndex(s, kept[i].id) < FirstIndex(s, kept[j].id)
  }

  lemma NoOccurrences(s: seq<Device>)
    ensures FirstOccurrences(s, 0) == [] && Increasing(s, [], 0)
  {
  }

  lemma OneMoreOccurrence(s: seq<Device>, n: nat)
    requires n < |s|
    ensures FirstOccurrences(s, n + 1) == FirstOccurrences(s, n) + (if FirstIndex(s, s[n].id) == n then [s[n]] else [])
  {
    hide FirstIndex;
  }

  lemma {:induction false} FirstOccurrencesIncrease(s: seq<Device>, n: nat)
    requires n <= |s|
    ensures Increasing(s, FirstOccurrences(s, n), n)
  {
    hide *;
    if n == 0 {
      NoOccurrences(s);
    } else {
      FirstOccurrencesIncrease(s, n - 1);
      OneMoreOccurrence(s, n - 1);
      IncreasingGrows(s, FirstOccurrences(s, n - 1), n - 1);
      assert FirstOccurrences(s, n - 1) + [] == FirstOccurrences(s, n - 1);
    }
  }

  lemma IncreasingGrows(s: seq<Device>, kept: seq<Device>, n: nat)
    requires n < |s| && Increasing(s, kept, n)
    ensures Increasing(s, kept, n + 1)
    ensures FirstIndex(s, s[n].id) == n ==> Increasing(s, kept + [s[n]], n + 1)
  {
    hide FirstIndex;
  }

  lemma {:induction false} FirstOccurrencesKeep(s: seq<Device>, n: nat)
    requires n <= |s|
    ensures forall d :: d in FirstOccurrences(s, n) ==> d in s[..n]
    ensures forall j :: 0 <= j < n && FirstIndex(s, s[j].id) == j ==> s[j] in FirstOccurrences(s, n)
  {
    hide *;
    if n == 0 {
      NoOccurrences(s);
    } else {
      FirstOccurrencesKeep(s, n - 1);
      OneMoreOccurrence(s, n - 1);
      assert s[..n] == s[..n - 1] + [s[n - 1]];
    }
  }

  lemma IndexOfMember(s: seq<Device>, d: Device)
    requires d in s
    ensures FirstIndex(s, d.id) < |s|
  {
  }

  /******* The order, said of positions in the walk *******/

  /** The device at `p` is the first end device linked to the router at `r`. */
  ghost predicate SampledBy(edges: seq<Edge>, walk: seq<Device>, r: int, p: int) {
    && 0 <= r < |walk| && 0 <= p < |walk| && walk[r].kind == Router && IsLinkedEnd(edges, walk[r], walk[p])
    && forall q :: 0 <= q < p ==> !IsLinkedEnd(edges, walk[r], walk[q])
  }

  ghost predicate IsLinkedEnd(edges: seq<Edge>, router: Device, d: Device) {
    d.kind != Coordinator && d.kind != Router && Linked(edges, router.id, d.id)
  }

  ghost predicate FirstSampledBy(edges: seq<Edge>, walk: seq<Device>, r: int, p: int) {
    SampledBy(edges, walk, r, p) && forall s :: 0 <= s < r ==> !SampledBy(edges, walk, s, p)
  }

  ghost predicate Sampled(edges: seq<Edge>, walk: seq<Device>, p: int) {
    exists r :: SampledBy(edges, walk, r, p)
  }

  ghost function Class(edges: seq<Edge>, walk: seq<Device>, p: nat): nat
    requires p < |walk|
  {
    match walk[p].kind
    case Coordinator => 0
    case Router => 1
    case OtherKind => if Sampled(edges, walk, p) then 2 else 3
  }

  /** Coordinators, routers, sampled end devices, others; sampled ones as their first routers are walked,
      the rest of each class as it is walked itself. */
  ghost predicate Precedes(edges: seq<Edge>, walk: seq<Device>, p: nat, q: nat)
    requires p < |walk| && q < |walk|
  {
    var a, b := Class(edges, walk, p), Class(edges, walk, q);
    if a != b then a < b
    else if a == 2 then SampledBefore(edges, walk, p, q)
    else p < q
  }

  ghost predicate SampledBefore(edges: seq<Edge>, walk: seq<Device>, p: nat, q: nat) {
    exists r, s :: r < s && FirstSampledBy(edges, walk, r, p) && FirstSampledBy(edges, walk, s, q)
  }

  ghost predicate RouterFirst(edges: seq<Edge>, walk: seq<Device>, order: seq<Device>) {
    && multiset(order) == multiset(walk)
    && forall i, j, p, q ::
         (0 <= i < j < |order| && 0 <= p < |walk| && 0 <= q < |walk| && walk[p] == order[i] && walk[q] == order[j]) ==>
           Precedes(edges, walk, p, q)
  }

  /** Which router each sample is for: routers in their order, each that has an end device, once. */
  ghost predicate SampleRouters(edges: seq<Edge>, walk: seq<Device>, routers: seq<Device>, samples: seq<Device>, from: seq<int>) {
    && |from| == |samples|
    && (forall a :: 0 <= a < |from| ==> 0 <= from[a] < |routers| && FirstEnd(edges, walk, routers[from[a]], samples[a]))
    && (forall a, b :: 0 <= a < b < |from| ==> from[a] < from[b])
    && (forall k, d :: 0 <= k < |routers| && FirstEnd(edges, walk, routers[k], d) ==> IsSampleOf(samples, from, k, d))
  }

  ghost predicate IsSampleOf(samples: seq<Device>, from: seq<int>, k: int, d: Device) {
    exists a :: 0 <= a < |samples| && a < |from| && from[a] == k && samples[a] == d
  }

  /** `d` is the first end device of the walk linked to `router`. */
  ghost predicate FirstEnd(edges: seq<Edge>, walk: seq<Device>, router: Device, d: Device) {
    exists p :: FirstEndAt(edges, walk, router, p) && walk[p] == d
  }

  ghost predicate FirstEndAt(edges: seq<Edge>, walk: seq<Device>, router: Device, p: int) {
    0 <= p < |walk| && IsLinkedEnd(edges, router, walk[p]) && forall q :: 0 <= q < p ==> !IsLinkedEnd(edges, router, walk[q])
  }

  lemma SampleIsFirstEnd(edges: seq<Edge>, walk: seq<Device>, router: Device)
    ensures var sample := FirstWhere(walk, (x: Device) => IsEndDevice(x) && Linked(edges, router.id, x.id));
            forall d :: FirstEnd(edges, walk, router, d) <==> sample == Some(d)
  {
    var p := (x: Device) => IsEndDevice(x) && Linked(edges, router.id, x.id);
    hide Linked;
    if FirstWhere(walk, p).Some? {
      var i := FirstWhereIsFirst(walk, p);
      assert FirstEndAt(edges, walk, router, i);
      assert forall k :: FirstEndAt(edges, walk, router, k) ==> k == i;
    } else {
      assert forall k :: 0 <= k < |walk| ==> walk[k] in walk && !p(walk[k]);
    }
  }

  lemma {:induction false} SamplesHaveRouters(edges: seq<Edge>, walk: seq<Device>, routers: seq<Device>) returns (from: seq<int>)
    ensures SampleRouters(edges, walk, routers, Samples(edges, walk, routers), from)
  {
    if routers == [] {
      from := [];
    } else {
      SampleIsFirstEnd(edges, walk, routers[0]);
      var rest := SamplesHaveRouters(edges, walk, routers[1..]);
      var later := Samples(edges, walk, routers[1..]);
      var sample := FirstWhere(walk, (x: Device) => IsEndDevice(x) && Linked(edges, routers[0].id, x.id));
      if sample.None? {
        from := OneMoreRouter(edges, walk, routers, later, rest);
      } else {
        from := OneMoreSample(edges, walk, routers, later, rest, sample.value);
      }
    }
  }

  lemma OneMoreRouter(edges: seq<Edge>, walk: seq<Device>, routers: seq<Device>, samples: seq<Device>, rest: seq<int>)
    returns (from: seq<int>)
    requires routers != [] && SampleRouters(edges, walk, routers[1..], samples, rest)
    requires forall d :: !FirstEnd(edges, walk, routers[0], d)
    ensures SampleRouters(edges, walk, routers, samples, from)
  {
    hide FirstEnd, IsSampleOf;
    from := seq(|rest|, a requires 0 <= a < |rest| => rest[a] + 1);
    assert forall a :: 0 <= a < |from| ==> routers[from[a]] == routers[1..][rest[a]];
    forall k, d | 0 <= k < |routers| && FirstEnd(edges, walk, routers[k], d)
      ensures IsSampleOf(samples, from, k, d)
    {
      assert routers[1..][k - 1] == routers[k];
      SampleStays(samples, rest, k - 1, d);
    }
  }

  lemma SampleStays(samples: seq<Device>, rest: seq<int>, k: nat, d: Device)
    requires |rest| == |samples| && IsSampleOf(samples, rest, k, d)
    ensures IsSampleOf(samples, seq(|rest|, a requires 0 <= a < |rest| => rest[a] + 1), k + 1, d)
  {
    var a :| 0 <= a < |samples| && a < |rest| && rest[a] == k && samples[a] == d;
    assert seq(|rest|, a requires 0 <= a < |rest| => rest[a] + 1)[a] == k + 1;
  }

  lemma OneMoreSample(edges: seq<Edge>, walk: seq<Device>, routers: seq<Device>, later: seq<Device>, rest: seq<int>, sample: Device)
    returns (from: seq<int>)
    requires routers != [] && SampleRouters(edges, walk, routers[1..], later, rest)
    requires FirstEnd(edges, walk, routers[0], sample) && forall d :: FirstEnd(edges, walk, routers[0], d) ==> d == sample
    ensures SampleRouters(edges, walk, routers, [sample] + later, from)
  {
    from := [0] + seq(|rest|, a requires 0 <= a < |rest| => rest[a] + 1);
    SamplesAreFirst(edges, walk, routers, later, rest, sample);
    forall k, d | 0 <= k < |routers| && FirstEnd(edges, walk, routers[k], d)
      ensures IsSampleOf([sample] + later, from, k, d)
    {
      FirstEndIsSample(edges, walk, routers, later, rest, sample, k, d);
    }
    hide *;
    SampleRoutersParts(edges, walk, routers, [sample] + later, from);
  }

  lemma SampleRoutersParts(edges: seq<Edge>, walk: seq<Device>, routers: seq<Device>, samples: seq<Device>, from: seq<int>)
    requires |from| == |samples|
    requires forall a :: 0 <= a < |from| ==> 0 <= from[a] < |routers| && FirstEnd(edges, walk, routers[from[a]], samples[a])
    requires forall a, b :: 0 <= a < b < |from| ==> from[a] < from[b]
    requires forall k, d :: 0 <= k < |routers| && FirstEnd(edges, walk, routers[k], d) ==> IsSampleOf(samples, from, k, d)
    ensures SampleRouters(edges, walk, routers, samples, from)
  {
    hide FirstEnd, IsSampleOf;
  }

  lemma FirstEndIsSample(edges: seq<Edge>, walk: seq<Device>, routers: seq<Device>, later: seq<Device>, rest: seq<int>,
                         sample: Device, k: nat, d: Device)
    requires k < |routers| && SampleRouters(edges, walk, routers[1..], later, rest)
    requires FirstEnd(edges, walk, routers[k], d) && (FirstEnd(edges, walk, routers[0], d) ==> d == sample)
    ensures IsSampleOf([sample] + later, [0] + seq(|rest|, a requires 0 <= a < |rest| => rest[a] + 1), k, d)
  {
    hide FirstEnd;
    var from := [0] + seq(|rest|, a requires 0 <= a < |rest| => rest[a] + 1);
    if k == 0 {
      assert from[0] == k && ([sample] + later)[0] == d;
    } else {
      assert routers[1..][k - 1] == routers[k];
      SampleMovesUp(later, rest, sample, k - 1, d);
    }
  }

  lemma SampleMovesUp(later: seq<Device>, rest: seq<int>, sample: Device, k: nat, d: Device)
    requires |rest| == |later| && IsSampleOf(later, rest, k, d)
    ensures IsSampleOf([sample] + later, [0] + seq(|rest|, a requires 0 <= a < |rest| => rest[a] + 1), k + 1, d)
  {
    var a :| 0 <= a < |later| && a < |rest| && rest[a] == k && later[a] == d;
    var from := [0] + seq(|rest|, a requires 0 <= a < |rest| => rest[a] + 1);
    assert from[a + 1] == k + 1 && ([sample] + later)[a + 1] == d;
  }

  lemma SamplesAreFirst(edges: seq<Edge>, walk: seq<Device>, routers: seq<Device>, later: seq<Device>, rest: seq<int>, sample: Device)
    requires routers != [] && SampleRouters(edges, walk, routers[1..], later, rest) && FirstEnd(edges, walk, routers[0], sample)
    ensures var from, samples := [0] + seq(|rest|, a requires 0 <= a < |rest| => rest[a] + 1), [sample] + later;
            && (forall a :: 0 <= a < |from| ==> 0 <= from[a] < |routers| && FirstEnd(edges, walk, routers[from[a]], samples[a]))
            && (forall a, b :: 0 <= a < b < |from| ==> from[a] < from[b])
  {
    hide FirstEnd, IsSampleOf;
    var from, samples := [0] + seq(|rest|, a requires 0 <= a < |rest| => rest[a] + 1), [sample] + later;
    assert forall a :: 1 <= a < |from| ==> from[a] == rest[a - 1] + 1 && samples[a] == later[a - 1]
                                            && routers[from[a]] == routers[1..][rest[a - 1]];
  }

  /** The parts of the priority list, in the walk's order. */
  ghost predicate Parts(edges: seq<Edge>, walk: seq<Device>, coordinators: seq<Device>, routers: seq<Device>,
                        samples: seq<Device>, from: seq<int>) {
    && DistinctIds(walk)
    && (forall d :: d in coordinators <==> d in walk && d.kind == Coordinator) && ListedInOrder(walk, coordinators)
    && (forall d :: d in routers <==> d in walk && d.kind == Router) && ListedInOrder(walk, routers) && DistinctIds(routers)
    && (forall d :: d in samples ==> d in walk && IsEndDevice(d))
    && SampleRouters(edges, walk, routers, samples, from)
  }

  /** Being a router's first end device, said of lists and of positions. */
  lemma SampledAt(edges: seq<Edge>, walk: seq<Device>, routers: seq<Device>, k: nat, r: nat, p: nat)
    requires DistinctIds(walk) && k < |routers| && r < |walk| && p < |walk| && routers[k] == walk[r] && walk[r].kind == Router
    ensures FirstEnd(edges, walk, routers[k], walk[p]) <==> SampledBy(edges, walk, r, p)
  {
    hide IsLinkedEnd;
    if FirstEnd(edges, walk, routers[k], walk[p]) {
      var q :| FirstEndAt(edges, walk, routers[k], q) && walk[q] == walk[p];
      assert q == p;
    }
    if SampledBy(edges, walk, r, p) { assert FirstEndAt(edges, walk, routers[k], p); }
  }

  lemma RouterAt(walk: seq<Device>, routers: seq<Device>, k: nat) returns (r: nat)
    requires k < |routers| && forall d :: d in routers ==> d in walk && d.kind == Router
    ensures r < |walk| && walk[r] == routers[k] && walk[r].kind == Router
  {
    assert routers[k] in routers;
    r :| 0 <= r < |walk| && walk[r] == routers[k];
  }

  lemma RouterListed(walk: seq<Device>, routers: seq<Device>, r: nat) returns (k: nat)
    requires r < |walk| && walk[r].kind == Router && forall d :: d in walk && d.kind == Router ==> d in routers
    ensures k < |routers| && routers[k] == walk[r]
  {
    assert walk[r] in routers;
    k :| 0 <= k < |routers| && routers[k] == walk[r];
  }

  /** The sample at `a`, if it is not one before as well, is first sampled by the router it is for. */
  lemma SampleIsFirstSampled(edges: seq<Edge>, walk: seq<Device>, coordinators: seq<Device>, routers: seq<Device>,
                             samples: seq<Device>, from: seq<int>, a: nat, p: nat) returns (r: nat)
    requires Parts(edges, walk, coordinators, routers, samples, from)
    requires a < |samples| && p < |walk| && samples[a] == walk[p] && forall b :: 0 <= b < a ==> samples[b] != walk[p]
    ensures r < |walk| && routers[from[a]] == walk[r] && FirstSampledBy(edges, walk, r, p)
  {
    r := RouterAt(walk, routers, from[a]);
    SampledAt(edges, walk, routers, from[a], r, p);
    hide IsLinkedEnd, SampledBy, FirstEnd;
    forall s: nat | s < r
      ensures !SampledBy(edges, walk, s, p)
    {
      if SampledBy(edges, walk, s, p) {
        SamplerIsRouter(edges, walk, s, p);
        var k := RouterListed(walk, routers, s);
        SampledAt(edges, walk, routers, k, s, p);
        FoundInOrder(walk, routers, k, from[a], s, r);
        EarlierSample(edges, walk, routers, samples, from, k, walk[p], a);
      }
    }
  }

  lemma SamplerIsRouter(edges: seq<Edge>, walk: seq<Device>, r: nat, p: nat)
    requires SampledBy(edges, walk, r, p)
    ensures r < |walk| && p < |walk| && walk[r].kind == Router && walk[p].kind == OtherKind
  {
  }

  /** Another router with the same first end device has it as a sample later on. */
  lemma EarlierSample(edges: seq<Edge>, walk: seq<Device>, routers: seq<Device>, samples: seq<Device>, from: seq<int>,
                      k: nat, d: Device, a: nat)
    requires SampleRouters(edges, walk, routers, samples, from)
    requires k < |routers| && FirstEnd(edges, walk, routers[k], d)
    requires a < |samples| && forall b :: 0 <= b < a ==> samples[b] != d
    ensures k >= from[a]
  {
    hide FirstEnd;
    assert IsSampleOf(samples, from, k, d);
    var b :| 0 <= b < |samples| && b < |from| && from[b] == k && samples[b] == d;
  }

  /** What is found in a walk is found in its order. */
  lemma FoundInOrder(walk: seq<Device>, found: seq<Device>, a: nat, b: nat, p: nat, q: nat)
    requires ListedInOrder(walk, found) && DistinctIds(walk) && a < |found| && b < |found| && p < |walk| && q < |walk|
    requires found[a] == walk[p] && found[b] == walk[q]
    ensures a < b ==> p < q
    ensures p < q ==> a < b || found[a] == found[b]
    ensures p != q ==> a != b
  {
  }

  lemma FirstIndexOfConcat(a: seq<Device>, b: seq<Device>, id: string)
    ensures FirstIndex(a + b, id) == if FirstIndex(a, id) < |a| then FirstIndex(a, id) else |a| + FirstIndex(b, id)
  {
    var i := FirstIndex(a, id);
    if i < |a| {
      assert (a + b)[i].id == id;
    } else if FirstIndex(b, id) < |b| {
      assert (a + b)[|a| + FirstIndex(b, id)].id == id;
    }
    assert forall k :: 0 <= k < |b| ==> (a + b)[|a| + k] == b[k];
  }

  /** Where a list drawn from the walk first names the device at `p` of it. */
  lemma IndexInPart(walk: seq<Device>, part: seq<Device>, p: nat)
    requires DistinctIds(walk) && p < |walk| && forall d :: d in part ==> d in walk
    ensures FirstIndex(part, walk[p].id) < |part| <==> walk[p] in part
    ensures var i := FirstIndex(part, walk[p].id);
            i < |part| ==> part[i] == walk[p] && forall b :: 0 <= b < i ==> part[b] != walk[p]
  {
    var i := FirstIndex(part, walk[p].id);
    if i < |part| {
      assert part[i] in part && walk[p] in walk;
      SameIdSameDevice(walk, part[i], walk[p]);
    }
  }

  lemma IndexInWalk(walk: seq<Device>, p: nat)
    requires DistinctIds(walk) && p < |walk|
    ensures FirstIndex(walk, walk[p].id) == p
  {
  }

  /** `i` is the place in coordinators, routers, samples and walk, one after the other, where the device
      at `p` of the walk is first named. */
  ghost predicate AtPlace(edges: seq<Edge>, walk: seq<Device>, coordinators: seq<Device>, routers: seq<Device>,
                          samples: seq<Device>, p: nat, i: nat)
    requires p < |walk|
  {
    var c, r, n := |coordinators|, |routers|, |samples|;
    match Class(edges, walk, p)
    case 0 => i < c && coordinators[i] == walk[p]
    case 1 => c <= i < c + r && routers[i - c] == walk[p]
    case 2 => c + r <= i < c + r + n && samples[i - c - r] == walk[p]
              && forall b :: 0 <= b < i - c - r ==> samples[b] != walk[p]
    case _ => i == c + r + n + p
  }

  lemma PriorityIndex(coordinators: seq<Device>, routers: seq<Device>, samples: seq<Device>, walk: seq<Device>, id: string)
    ensures var i, j, k := FirstIndex(coordinators, id), FirstIndex(routers, id), FirstIndex(samples, id);
            FirstIndex(coordinators + routers + samples + walk, id) ==
              if i < |coordinators| then i
              else if j < |routers| then |coordinators| + j
              else if k < |samples| then |coordinators| + |routers| + k
              else |coordinators| + |routers| + |samples| + FirstIndex(walk, id)
  {
    FirstIndexOfConcat(coordinators, routers, id);
    FirstIndexOfConcat(coordinators + routers, samples, id);
    FirstIndexOfConcat(coordinators + routers + samples, walk, id);
    hide FirstIndex;
  }

  lemma PriorityPlace(edges: seq<Edge>, walk: seq<Device>, coordinators: seq<Device>, routers: seq<Device>,
                      samples: seq<Device>, from: seq<int>, p: nat)
    requires Parts(edges, walk, coordinators, routers, samples, from) && p < |walk|
    ensures AtPlace(edges, walk, coordinators, routers, samples, p, FirstIndex(coordinators + routers + samples + walk, walk[p].id))
  {
    assert walk[p] in walk;
    var id := walk[p].id;
    SampledIsSample(edges, walk, coordinators, routers, samples, from, p);
    PartsAreParts(edges, walk, coordinators, routers, samples, from, walk[p]);
    hide *;
    PriorityIndex(coordinators, routers, samples, walk, id);
    IndexInPart(walk, coordinators, p);
    IndexInPart(walk, routers, p);
    IndexInPart(walk, samples, p);
    IndexInWalk(walk, p);
    PlaceIs(edges, walk, coordinators, routers, samples, p,
            FirstIndex(coordinators, id), FirstIndex(routers, id), FirstIndex(samples, id));
  }

  lemma PlaceIs(edges: seq<Edge>, walk: seq<Device>, coordinators: seq<Device>, routers: seq<Device>,
                samples: seq<Device>, p: nat, i: nat, j: nat, k: nat)
    requires p < |walk|
    requires var d := walk[p];
             && (d in coordinators <==> d.kind == Coordinator) && (d in routers <==> d.kind == Router)
             && (d in samples <==> Sampled(edges, walk, p)) && (d in samples ==> d.kind == OtherKind)
             && (d in coordinators <==> i < |coordinators|) && (i < |coordinators| ==> coordinators[i] == d)
             && (d in routers <==> j < |routers|) && (j < |routers| ==> routers[j] == d)
             && (d in samples <==> k < |samples|) && (k < |samples| ==> samples[k] == d && forall b :: 0 <= b < k ==> samples[b] != d)
    ensures AtPlace(edges, walk, coordinators, routers, samples, p,
                    if i < |coordinators| then i
                    else if j < |routers| then |coordinators| + j
                    else if k < |samples| then |coordinators| + |routers| + k
                    else |coordinators| + |routers| + |samples| + p)
  {
    hide Sampled;
  }

  lemma PartsAreParts(edges: seq<Edge>, walk: seq<Device>, coordinators: seq<Device>, routers: seq<Device>,
                      samples: seq<Device>, from: seq<int>, d: Device)
    requires Parts(edges, walk, coordinators, routers, samples, from) && d in walk
    ensures DistinctIds(walk) && (d in coordinators <==> d.kind == Coordinator) && (d in routers <==> d.kind == Router)
    ensures d in samples ==> d.kind == OtherKind
    ensures forall x :: x in coordinators || x in routers || x in samples ==> x in walk
  {
    hide SampleRouters, ListedInOrder, DistinctIds;
  }

  lemma SampledIsSample(edges: seq<Edge>, walk: seq<Device>, coordinators: seq<Device>, routers: seq<Device>,
                        samples: seq<Device>, from: seq<int>, p: nat)
    requires Parts(edges, walk, coordinators, routers, samples, from) && p < |walk|
    ensures Sampled(edges, walk, p) <==> walk[p] in samples
  {
    if r :| SampledBy(edges, walk, r, p) {
      SamplerIsRouter(edges, walk, r, p);
      var k := RouterListed(walk, routers, r);
      SampledAt(edges, walk, routers, k, r, p);
      assert IsSampleOf(samples, from, k, walk[p]);
    }
    if walk[p] in samples {
      var a :| 0 <= a < |samples| && samples[a] == walk[p];
      var r := RouterAt(walk, routers, from[a]);
      SampledAt(edges, walk, routers, from[a], r, p);
    }
  }

  lemma PlaceDecides(edges: seq<Edge>, walk: seq<Device>, coordinators: seq<Device>, routers: seq<Device>,
                     samples: seq<Device>, from: seq<int>, p: nat, q: nat, i: nat, j: nat)
    requires Parts(edges, walk, coordinators, routers, samples, from) && p < |walk| && q < |walk| && i < j
    requires AtPlace(edges, walk, coordinators, routers, samples, p, i) && AtPlace(edges, walk, coordinators, routers, samples, q, j)
    ensures Precedes(edges, walk, p, q)
  {
    hide SampleRouters, Sampled, SampledBefore;
    var level, c, r := Class(edges, walk, p), |coordinators|, |routers|;
    if level == Class(edges, walk, q) {
      if level == 0 {
        FoundInOrder(walk, coordinators, i, j, p, q);
      } else if level == 1 {
        FoundInOrder(walk, routers, i - c, j - c, p, q);
      } else if level == 2 {
        SampledInOrder(edges, walk, coordinators, routers, samples, from, i - c - r, j - c - r, p, q);
      }
    }
  }

  lemma SampledInOrder(edges: seq<Edge>, walk: seq<Device>, coordinators: seq<Device>, routers: seq<Device>,
                       samples: seq<Device>, from: seq<int>, a: nat, b: nat, p: nat, q: nat)
    requires Parts(edges, walk, coordinators, routers, samples, from) && p < |walk| && q < |walk| && a < b < |samples|
    requires samples[a] == walk[p] && (forall k :: 0 <= k < a ==> samples[k] != walk[p])
    requires samples[b] == walk[q] && (forall k :: 0 <= k < b ==> samples[k] != walk[q])
    ensures SampledBefore(edges, walk, p, q)
  {
    var r := SampleIsFirstSampled(edges, walk, coordinators, routers, samples, from, a, p);
    var s := SampleIsFirstSampled(edges, walk, coordinators, routers, samples, from, b, q);
    assert from[a] < from[b];
    FoundInOrder(walk, routers, from[a], from[b], r, s);
    hide FirstSampledBy;
  }

  /** The reordering loses nobody and repeats nobody, and puts coordinators first, then routers, then
      the first end device of each router, and then the rest. */
  lemma PrioritizedIsRouterFirst(edges: seq<Edge>, walk: seq<Device>)
    requires DistinctIds(walk)
    ensures RouterFirst(edges, walk, Prioritized(edges, walk)) && DistinctIds(Prioritized(edges, walk))
  {
    var routers := Where(walk, (d: Device) => d.kind == Router);
    var coordinators := Where(walk, (d: Device) => d.kind == Coordinator);
    var samples := Samples(edges, walk, routers);
    var priority := coordinators + routers + samples + walk;
    var result := Prioritized(edges, walk);
    NothingLost(walk, priority, result);
    var from := SamplesHaveRouters(edges, walk, routers);
    ListsAreParts(edges, walk, from);
    PlacedByPriority(edges, walk, coordinators, routers, samples, from, result);
    hide *;
  }

  lemma ListsAreParts(edges: seq<Edge>, walk: seq<Device>, from: seq<int>)
    requires DistinctIds(walk)
    requires var routers := Where(walk, (d: Device) => d.kind == Router);
             SampleRouters(edges, walk, routers, Samples(edges, walk, routers), from)
    ensures var routers, coordinators := Where(walk, (d: Device) => d.kind == Router), Where(walk, (d: Device) => d.kind == Coordinator);
            Parts(edges, walk, coordinators, routers, Samples(edges, walk, routers), from)
  {
    WhereKeepsOrder(walk, (d: Device) => d.kind == Router);
    WhereKeepsOrder(walk, (d: Device) => d.kind == Coordinator);
    WhereKeepsDistinctIds(walk, (d: Device) => d.kind == Router);
    hide Where, Samples, SampleRouters, ListedInOrder, DistinctIds;
  }

  lemma PlacedByPriority(edges: seq<Edge>, walk: seq<Device>, coordinators: seq<Device>, routers: seq<Device>,
                         samples: seq<Device>, from: seq<int>, result: seq<Device>)
    requires Parts(edges, walk, coordinators, routers, samples, from) && multiset(result) == multiset(walk)
    requires var all := coordinators + routers + samples + walk; Increasing(all, result, |all|)
    ensures RouterFirst(edges, walk, result)
  {
    var all := coordinators + routers + samples + walk;
    hide Parts, Precedes, FirstIndex, AtPlace;
    forall i, j, p, q | 0 <= i < j < |result| && 0 <= p < |walk| && 0 <= q < |walk| && walk[p] == result[i] && walk[q] == result[j]
      ensures Precedes(edges, walk, p, q)
    {
      PriorityPlace(edges, walk, coordinators, routers, samples, from, p);
      PriorityPlace(edges, walk, coordinators, routers, samples, from, q);
      PlaceDecides(edges, walk, coordinators, routers, samples, from, p, q,
                   FirstIndex(all, walk[p].id), FirstIndex(all, walk[q].id));
    }
  }

  lemma NothingLost(walk: seq<Device>, priority: seq<Device>, result: seq<Device>)
    requires DistinctIds(walk) && (forall d :: d in priority <==> d in walk) && result == FirstOccurrences(priority, |priority|)
    ensures multiset(result) == multiset(walk) && DistinctIds(result) && Increasing(priority, result, |priority|)
  {
    FirstOccurrencesKeep(priority, |priority|);
    FirstOccurrencesIncrease(priority, |priority|);
    assert priority[..|priority|] == priority;
    forall d | d in walk
      ensures d in result
    {
      IndexOfMember(priority, d);
      var i := FirstIndex(priority, d.id);
      assert priority[i] in priority;
      SameIdSameDevice(walk, d, priority[i]);
    }
    assert DistinctIds(result);
    SameElementsSamePermutation(result, walk);
  }
}
