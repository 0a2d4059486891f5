/**
 Peer requests are signed, carry a nonce and a clock reading, and are accepted once.
 The receiver remembers nonces in a bounded cache that forgets old entries.
 */
module RequestReplay {
  import opened Common

  const MAX_CLOCK_SKEW := 30
  const NONCE_TTL := 120
  const API_VERSION := "1"

  /** A request's headers. `signed` says whether its signature verifies under the key the
      receiver holds for the sender; node ids are 32 hexadecimal digits. */
  datatype Request = Request(
    sender: string, target: string, version: string, timestamp: Option<int>, nonce: string, signed: bool)

  function Key(sender: string, nonce: string): string {
    sender + ":" + nonce
  }

  predicate IsNodeId(id: string) {
    |id| == 32
  }

  /** Node ids are of one length, so a cache key names one sender and one nonce. */
  lemma KeyIsInjective(s: string, m: string, t: string, n: string)
    requires IsNodeId(s) && IsNodeId(t) && Key(s, m) == Key(t, n)
    ensures s == t && m == n
  {
    var k := Key(s, m);
    assert k[..32] == s && k[33..] == m;
    assert Key(t, n)[..32] == t && Key(t, n)[33..] == n;
  }

  type Cache = map<string, int>

  /** The entries young enough to keep at `now`. */
  function Pruned(c: Cache, now: int): (r: Cache)
    ensures r.Keys <= c.Keys && forall k :: k in r ==> r[k] == c[k]
  {
    map k | k in c && c[k] >= now - NONCE_TTL :: c[k]
  }

  predicate Oldest(c: Cache, k: string) {
    k in c && forall x :: x in c ==> c[k] <= c[x]
  }

  /** What consuming a nonce may do. Among equally old entries any one may be evicted. */
  ghost predicate Consumed(c: Cache, limit: nat, key: string, now: int, ok: bool, after: Cache) {
    var recent := Pruned(c, now);
    if key in recent then !ok && after == recent
    else if |recent| >= limit then
      ok && exists oldest :: Oldest(recent, oldest) && after == (recent - {oldest})[key := now]
    else ok && after == recent[key := now]
  }

  predicate Acceptable(r: Request, sender: string, receiver: string, now: int) {
    && r.sender != "" && r.sender == sender && r.target == receiver && r.version == API_VERSION
    && r.timestamp.Some? && -MAX_CLOCK_SKEW <= now - r.timestamp.value <= MAX_CLOCK_SKEW
    && |r.nonce| >= 2 && r.signed
  }

  /** One call of `verify_request`: refusals before the nonce is looked at leave the cache alone. */
  ghost predicate Verified(c: Cache, limit: nat, r: Request, sender: string, receiver: string, now: int, ok: bool, after: Cache) {
    if !Acceptable(r, sender, receiver, now) then !ok && after == c
    else Consumed(c, limit, Key(r.sender, r.nonce), now, ok, after)
  }

  lemma {:induction false} OldestExists(c: Cache, n: nat)
    requires |c| == n && c != map[]
    ensures exists k :: Oldest(c, k)
    decreases n
  {
    var k :| k in c;
    var rest := c - {k};
    assert c.Keys == rest.Keys + {k};
    if rest == map[] {
      assert forall x :: x in c ==> x == k;
      assert Oldest(c, k);
    } else {
      assert |rest.Keys| < |c.Keys|;
      OldestExists(rest, |rest|);
      var o :| Oldest(rest, o);
      assert forall x :: x in c ==> x == k || (x in rest && rest[x] == c[x]);
      assert Oldest(c, o) || Oldest(c, k);
    }
  }

  lemma OldestIsThere(c: Cache, oldest: string)
    requires Oldest(c, oldest)
    ensures |c - {oldest}| == |c| - 1
  {
    assert (c - {oldest}).Keys == c.Keys - {oldest};
  }

  lemma OneMoreKey(c: Cache, k: string, t: int)
    requires k !in c
    ensures |c[k := t]| == |c| + 1
  {
    assert c[k := t].Keys == c.Keys + {k};
  }

  /** A nonce remembered for at most two minutes. */
  ghost predicate Remembered(c: Cache, key: string, now: int) {
    key in c && now - c[key] <= 120
  }

  /** A nonce is taken: what was remembered still is, but for one of the oldest if there was no room. */
  ghost predicate Taken(before: Cache, limit: nat, key: string, now: int, after: Cache) {
    && key in after && after[key] == now
    && (forall k :: k in after && k != key ==> Remembered(before, k, now) && after[k] == before[k])
    && var recent := set k | k in before && Remembered(before, k, now);
       if |recent| < limit then forall k :: k in recent ==> k in after
       else exists gone :: gone in recent && (forall k :: k in recent ==> before[gone] <= before[k])
              && forall k :: k in recent && k != key ==> (k in after <==> k != gone)
  }

  lemma RecentIsPruned(c: Cache, now: int)
    ensures Pruned(c, now).Keys == set k | k in c && Remembered(c, k, now)
    ensures forall k :: k in Pruned(c, now) <==> Remembered(c, k, now)
  {
  }

  lemma ConsumedTakes(c: Cache, limit: nat, key: string, now: int, after: Cache)
    requires Consumed(c, limit, key, now, true, after)
    ensures Taken(c, limit, key, now, after)
  {
    RecentIsPruned(c, now);
    var recent := Pruned(c, now);
    hide Pruned, Remembered;
    if |recent| >= limit {
      var oldest :| Oldest(recent, oldest) && after == (recent - {oldest})[key := now];
      assert oldest in recent.Keys && forall k :: k in recent.Keys ==> c[oldest] <= c[k];
    }
  }

  class NonceCache {
    var values: Cache
    const limit: nat

    constructor (limit: nat)
      requires limit >= 1
      ensures values == map[] && this.limit == limit
    {
      values, this.limit := map[], limit;
    }

    /** Remember a sender's nonce; false when it is remembered already. */
    method Consume(sender: string, nonce: string, now: int) returns (ok: bool)
      requires limit >= 1
      modifies this
      ensures Consumed(old(values), limit, Key(sender, nonce), now, ok, values)
      ensures ok <==> !Remembered(old(values), sender + ":" + nonce, now)
      ensures ok ==> Taken(old(values), limit, sender + ":" + nonce, now, values)
      ensures !ok ==> forall k :: (k in values <==> Remembered(old(values), k, now)) && (k in values ==> values[k] == old(values)[k])
      ensures |old(values)| <= limit ==> |values| <= limit
    {
      var stale := set k | k in values && values[k] < now - NONCE_TTL;
      values := values - stale;
      assert values == Pruned(old(values), now);
      FewerKeys(values, old(values));
      RecentIsPruned(old(values), now);
      var key := Key(sender, nonce);
      assert key == sender + ":" + nonce;
      hide Pruned, Oldest, Key, Remembered, Taken;
      if key in values { return false; }
      if |values| >= limit {
        OldestExists(values, |values|);
        var oldest :| Oldest(values, oldest);
        OldestIsThere(values, oldest);
        values := values - {oldest};
      }
      OneMoreKey(values, key, now);
      values := values[key := now];
      ok := true;
      ConsumedTakes(old(values), limit, key, now, values);
    }

    method VerifyRequest(r: Request, sender: string, receiver: string, now: int) returns (ok: bool)
      requires limit >= 1
      modifies this
      ensures Verified(old(values), limit, r, sender, receiver, now, ok, values)
      ensures var wellFormed := && r.sender != "" && r.sender == sender && r.target == receiver && r.version == "1"
                                && r.timestamp.Some? && now - 30 <= r.timestamp.value <= now + 30 && |r.nonce| > 1 && r.signed;
              && (ok <==> wellFormed && !Remembered(old(values), sender + ":" + r.nonce, now))
              && (ok ==> Taken(old(values), limit, sender + ":" + r.nonce, now, values))
              && (!wellFormed ==> values == old(values))
      ensures |old(values)| <= limit ==> |values| <= limit
    {
      hide Remembered, Taken;
      if r.sender == "" || r.sender != sender { return false; }
      if r.target != receiver { return false; }
      if r.version != API_VERSION { return false; }
      if r.timestamp.None? { return false; }
      var skew := now - r.timestamp.value;
      if skew > MAX_CLOCK_SKEW || -skew > MAX_CLOCK_SKEW { return false; }
      if |r.nonce| < 2 { return false; }
      if !r.signed { return false; }
      ok := Consume(r.sender, r.nonce, now);
    }
  }

  lemma FewerKeys(a: Cache, b: Cache)
    requires a.Keys <= b.Keys
    ensures |a| <= |b|
  {
    assert b.Keys == a.Keys + (b.Keys - a.Keys);
    assert |a.Keys| <= |b.Keys|;
  }

  /******* Runs *******/

  /** One verification, with the cache before and after it. */
  datatype Attempt = Attempt(request: Request, sender: string, now: int, before: Cache, ok: bool, after: Cache)

  function KeyOf(a: Attempt): string { Key(a.request.sender, a.request.nonce) }

  /** Attempt `i` is one verification, and starts from the cache the one before it left. */
  ghost predicate AttemptAt(run: seq<Attempt>, limit: nat, receiver: string, i: nat)
    requires i < |run|
  {
    var a := run[i];
    && a.before == (if i == 0 then map[] else run[i - 1].after)
    && Verified(a.before, limit, a.request, a.sender, receiver, a.now, a.ok, a.after)
  }

  /** A receiver's history from an empty cache, its clock never going back. */
  ghost predicate History(run: seq<Attempt>, limit: nat, receiver: string) {
    && (forall i :: 0 <= i < |run| ==> AttemptAt(run, limit, receiver, i))
    && (forall i, j :: 0 <= i < j < |run| ==> run[i].now <= run[j].now)
  }

  /** The acceptances before step `m` in the closed span of 60 seconds from `t`. */
  ghost function Accepted(run: seq<Attempt>, t: int, m: nat): set<int> {
    set i | 0 <= i < m && i < |run| && run[i].ok && t <= run[i].now <= t + 2 * MAX_CLOCK_SKEW
  }

  /** All the acceptances in that span. */
  ghost function Burst(run: seq<Attempt>, t: int): set<int> {
    Accepted(run, t, |run|)
  }

  ghost predicate BurstsWithin(run: seq<Attempt>, bound: nat) {
    forall t :: |Burst(run, t)| <= bound
  }

  lemma FewerAccepted(run: seq<Attempt>, t: int, m: nat, n: nat)
    requires m <= n
    ensures |Accepted(run, t, m)| <= |Accepted(run, t, n)|
    ensures |Accepted(run, t, m)| <= |Burst(run, t)|
  {
    SubsetIsSmaller(Accepted(run, t, m), Accepted(run, t, n));
    SubsetIsSmaller(Accepted(run, t, m), Burst(run, t));
  }

  /** Every remembered nonce was accepted earlier, at the time remembered. */
  ghost predicate Accounted(run: seq<Attempt>, m: nat, c: Cache)
    requires m <= |run|
  {
    forall k :: k in c ==> exists i :: 0 <= i < m && run[i].ok && KeyOf(run[i]) == k && run[i].now == c[k]
  }

  lemma {:induction false} CacheAccounted(run: seq<Attempt>, limit: nat, receiver: string, m: nat)
    requires History(run, limit, receiver) && m < |run|
    ensures Accounted(run, m, run[m].before)
  {
    assert AttemptAt(run, limit, receiver, m);
    if m > 0 {
      assert AttemptAt(run, limit, receiver, m - 1);
      CacheAccounted(run, limit, receiver, m - 1);
      var a := run[m - 1];
      forall k | k in a.after
        ensures exists i :: 0 <= i < m && run[i].ok && KeyOf(run[i]) == k && run[i].now == a.after[k]
      {
        if !(a.ok && k == KeyOf(a)) {
          assert k in a.before && a.before[k] == a.after[k];
          var i :| 0 <= i < m - 1 && run[i].ok && KeyOf(run[i]) == k && run[i].now == a.before[k];
        }
      }
    }
  }

  lemma {:induction false} ImageIsNoLarger(keys: set<string>, s: set<int>, run: seq<Attempt>)
    requires forall i :: i in s ==> 0 <= i < |run|
    requires forall k :: k in keys ==> exists i :: i in s && KeyOf(run[i]) == k
    ensures |keys| <= |s|
    decreases s
  {
    if i :| i in s {
      var k := KeyOf(run[i]);
      forall x | x in keys - {k}
        ensures exists j :: j in s - {i} && KeyOf(run[j]) == x
      {
        var j :| j in s && KeyOf(run[j]) == x;
        assert j in s - {i};
      }
      ImageIsNoLarger(keys - {k}, s - {i}, run);
      assert keys <= (keys - {k}) + {k};
      CardOfUnion(keys, k);
      assert s == (s - {i}) + {i};
    } else {
      assert keys == {};
    }
  }

  lemma CardOfUnion(keys: set<string>, k: string)
    ensures |keys| <= |keys - {k}| + 1
  {
  }

  /** An entry accepted at step `i` outlives step `m`, unless more were accepted by then than fit. */
  lemma EntrySurvives(run: seq<Attempt>, limit: nat, receiver: string, i: nat, m: nat)
    requires History(run, limit, receiver)
    requires i < m < |run| && run[i].ok && run[m].now <= run[i].now + 2 * MAX_CLOCK_SKEW
    requires |Accepted(run, run[i].now, m + 1)| <= limit
    requires KeyOf(run[i]) in run[m].before && run[m].before[KeyOf(run[i])] == run[i].now
    ensures KeyOf(run[i]) in run[m].after
    ensures run[m].after[KeyOf(run[i])] == run[i].now
  {
    assert AttemptAt(run, limit, receiver, m);
    var k, a := KeyOf(run[i]), run[m];
    var recent := Pruned(a.before, a.now);
    assert k in recent && recent[k] == run[i].now;
    if a.ok && |recent| >= limit {
      var oldest :| Oldest(recent, oldest) && a.after == (recent - {oldest})[KeyOf(a) := a.now];
      if oldest == k {
        CrowdedCacheMeansBurst(run, limit, receiver, i, m);
      }
    }
  }

  lemma RememberedSince(run: seq<Attempt>, limit: nat, receiver: string, i: nat, m: nat, x: string)
    requires History(run, limit, receiver) && i < m < |run|
    requires run[m].now <= run[i].now + 2 * MAX_CLOCK_SKEW
    requires x in run[m].before && run[i].now <= run[m].before[x]
    ensures exists j :: j in Accepted(run, run[i].now, m) && KeyOf(run[j]) == x
  {
    CacheAccounted(run, limit, receiver, m);
    hide AttemptAt, KeyOf;
    var j :| 0 <= j < m && run[j].ok && KeyOf(run[j]) == x && run[j].now == run[m].before[x];
    assert j in Accepted(run, run[i].now, m);
  }

  lemma AcceptedAreSteps(run: seq<Attempt>, t: int, m: nat)
    ensures forall i :: i in Accepted(run, t, m) ==> 0 <= i < |run|
  {
  }

  lemma OneMoreAccepted(run: seq<Attempt>, t: int, m: nat)
    requires m < |run| && run[m].ok && t <= run[m].now <= t + 2 * MAX_CLOCK_SKEW
    ensures |Accepted(run, t, m + 1)| == |Accepted(run, t, m)| + 1
  {
    assert Accepted(run, t, m + 1) == Accepted(run, t, m) + {m};
  }

  /** A full cache whose oldest entry is step `i`'s was filled within the 60 seconds since. */
  lemma CrowdedCacheMeansBurst(run: seq<Attempt>, limit: nat, receiver: string, i: nat, m: nat)
    requires History(run, limit, receiver)
    requires i < m < |run| && run[m].ok && run[m].now <= run[i].now + 2 * MAX_CLOCK_SKEW
    requires |Pruned(run[m].before, run[m].now)| >= limit
    requires forall x :: x in Pruned(run[m].before, run[m].now) ==> run[i].now <= run[m].before[x]
    ensures |Accepted(run, run[i].now, m + 1)| > limit
  {
    OneMoreAccepted(run, run[i].now, m);
    hide *;
    var recent, earlier := Pruned(run[m].before, run[m].now), Accepted(run, run[i].now, m);
    forall x | x in recent.Keys
      ensures exists j :: j in earlier && KeyOf(run[j]) == x
    {
      RememberedSince(run, limit, receiver, i, m, x);
    }
    AcceptedAreSteps(run, run[i].now, m);
    ImageIsNoLarger(recent.Keys, earlier, run);
    assert |recent| == |recent.Keys|;
  }

  /** An accepted entry is there with its time for 60 seconds, as long as no more have been accepted
      since its time than the cache holds. */
  lemma {:induction false} EntryStays(run: seq<Attempt>, limit: nat, receiver: string, i: nat, m: nat)
    requires History(run, limit, receiver)
    requires i < m < |run| && run[i].ok && run[m].now <= run[i].now + 2 * MAX_CLOCK_SKEW
    requires |Accepted(run, run[i].now, m)| <= limit
    ensures KeyOf(run[i]) in run[m].before && run[m].before[KeyOf(run[i])] == run[i].now
    decreases m
  {
    assert AttemptAt(run, limit, receiver, m);
    if m == i + 1 {
      assert AttemptAt(run, limit, receiver, i);
    } else {
      assert run[m - 1].now <= run[m].now;
      FewerAccepted(run, run[i].now, m - 1, m);
      EntryStays(run, limit, receiver, i, m - 1);
      EntrySurvives(run, limit, receiver, i, m - 1);
    }
  }

  ghost predicate SameRequest(a: Request, b: Request) {
    a.sender == b.sender && a.nonce == b.nonce && a.timestamp == b.timestamp
  }

  /** A signed request is accepted a second time only in the same 60 seconds, and only after so many
      others that these see two more acceptances than the cache has room for. */
  lemma ReplayNeedsCrowd(run: seq<Attempt>, limit: nat, receiver: string, i: nat, j: nat)
    requires History(run, limit, receiver)
    requires i < j < |run| && run[i].ok && run[j].ok && SameRequest(run[i].request, run[j].request)
    ensures run[j].now <= run[i].now + 2 * MAX_CLOCK_SKEW
    ensures |Burst(run, run[i].now)| >= limit + 2
  {
    assert AttemptAt(run, limit, receiver, i) && AttemptAt(run, limit, receiver, j);
    if |Accepted(run, run[i].now, j)| <= limit {
      EntryStays(run, limit, receiver, i, j);
    }
    assert run[i].now <= run[j].now;
    OneMoreAccepted(run, run[i].now, j);
    FewerAccepted(run, run[i].now, j + 1, |run|);
  }

  ghost predicate AcceptsNothingTwice(run: seq<Attempt>) {
    forall i, j :: 0 <= i < j < |run| && run[i].ok && run[j].ok ==> !SameRequest(run[i].request, run[j].request)
  }

  /** No signed request is accepted twice while no closed span of 60 seconds sees more than one
      acceptance above what the cache has room for. */
  lemma NoRequestAcceptedTwice(run: seq<Attempt>, limit: nat, receiver: string)
    requires History(run, limit, receiver) && BurstsWithin(run, limit + 1)
    ensures AcceptsNothingTwice(run)
  {
    forall i, j | 0 <= i < j < |run| && run[i].ok && run[j].ok
      ensures !SameRequest(run[i].request, run[j].request)
    {
      if SameRequest(run[i].request, run[j].request) {
        assert |Burst(run, run[i].now)| <= limit + 1;
        ReplayNeedsCrowd(run, limit, receiver, i, j);
      }
    }
  }

  lemma {:induction false} CacheStaysBounded(run: seq<Attempt>, limit: nat, receiver: string, m: nat)
    requires History(run, limit, receiver) && limit >= 1 && m < |run|
    ensures |run[m].before| <= limit && |run[m].after| <= limit
  {
    assert AttemptAt(run, limit, receiver, m);
    if m > 0 {
      CacheStaysBounded(run, limit, receiver, m - 1);
    }
    var a := run[m];
    var recent := Pruned(a.before, a.now);
    FewerKeys(recent, a.before);
    if a.ok && |recent| >= limit {
      var oldest :| Oldest(recent, oldest) && a.after == (recent - {oldest})[KeyOf(a) := a.now];
      assert (recent - {oldest}).Keys == recent.Keys - {oldest};
      assert a.after.Keys == (recent.Keys - {oldest}) + {KeyOf(a)};
      assert |a.after| == |a.after.Keys|;
    } else if a.ok {
      assert a.after.Keys == recent.Keys + {KeyOf(a)};
      assert |a.after| == |a.after.Keys|;
    }
  }

  /******* One acceptance more, and a replay can succeed *******/

  function SampleNonce(i: nat): string {
    if i == 0 then "aa" else SampleNonce(i - 1) + "a"
  }

  lemma {:induction false} SampleNonceLength(i: nat)
    ensures |SampleNonce(i)| == i + 2
  {
    if i > 0 { SampleNonceLength(i - 1); }
  }

  const SENDER := "0123456789abcdef0123456789abcdef"

  function SampleRequest(i: nat): Request {
    Request(SENDER, "me", API_VERSION, Some(0), SampleNonce(i), true)
  }

  lemma SampleKeysDiffer(i: nat, j: nat)
    requires i != j
    ensures KeyOfRequest(SampleRequest(i)) != KeyOfRequest(SampleRequest(j))
  {
    SampleNonceLength(i);
    SampleNonceLength(j);
    assert |KeyOfRequest(SampleRequest(i))| == i + 35 && |KeyOfRequest(SampleRequest(j))| == j + 35;
  }

  lemma SampleRequestsDiffer(i: nat, j: nat)
    requires i != j
    ensures !SameRequest(SampleRequest(i), SampleRequest(j))
  {
    SampleNonceLength(i);
    SampleNonceLength(j);
  }

  function KeyOfRequest(r: Request): string { Key(r.sender, r.nonce) }

  /** The cache after the first `n` sample requests, all at time 0. */
  function Filled(n: nat): (c: Cache)
    ensures forall k :: k in c ==> c[k] == 0
  {
    if n == 0 then map[] else Filled(n - 1)[KeyOfRequest(SampleRequest(n - 1)) := 0]
  }

  lemma {:induction false} FilledKeys(n: nat, i: nat)
    ensures KeyOfRequest(SampleRequest(i)) in Filled(n) <==> i < n
  {
    hide KeyOfRequest, SampleRequest;
    if n > 0 {
      FilledKeys(n - 1, i);
      if i != n - 1 { SampleKeysDiffer(i, n - 1); }
    }
  }

  lemma {:induction false} FilledSize(n: nat)
    ensures |Filled(n)| == n
  {
    hide KeyOfRequest, SampleRequest;
    if n > 0 {
      FilledSize(n - 1);
      FilledKeys(n - 1, n - 1);
      OneMoreKey(Filled(n - 1), KeyOfRequest(SampleRequest(n - 1)), 0);
    }
  }

  /** The cache after one sample request more than fits: the first one is evicted. */
  function Crowded(limit: nat): Cache {
    (Filled(limit) - {KeyOfRequest(SampleRequest(0))})[KeyOfRequest(SampleRequest(limit)) := 0]
  }

  /** The cache after the first sample request came again: the second one is evicted. */
  function Replayed(limit: nat): Cache {
    (Crowded(limit) - {KeyOfRequest(SampleRequest(1))})[KeyOfRequest(SampleRequest(0)) := 0]
  }

  function CacheAt(limit: nat, i: nat): Cache {
    if i <= limit then Filled(i) else if i == limit + 1 then Crowded(limit) else Replayed(limit)
  }

  /** The acceptances, all at time 0, of `limit + 1` sample requests and of the first of them again. */
  function ReplayRun(limit: nat): seq<Attempt> {
    seq(limit + 2, i requires 0 <= i =>
      Attempt(SampleRequest(if i <= limit then i else 0), SENDER, 0, CacheAt(limit, i), true, CacheAt(limit, i + 1)))
  }

  /** For every cache size there is a history in which one more acceptance than fits within
      60 seconds lets the first request through a second time. */
  lemma OneMoreAllowsReplay(limit: nat)
    requires limit >= 1
    ensures var run := ReplayRun(limit);
            && History(run, limit, "me") && |run| == limit + 2
            && (forall i :: 0 <= i < |run| ==> run[i].ok && run[i].now == 0)
            && (forall i, j :: 0 <= i < j <= limit ==> !SameRequest(run[i].request, run[j].request))
            && run[limit + 1].request == run[0].request
  {
    var run := ReplayRun(limit);
    hide Verified, Crowded, Replayed, SampleNonce, KeyOfRequest, SampleRequest;
    forall i | 0 <= i < |run|
      ensures AttemptAt(run, limit, "me", i)
    {
      if i < limit {
        FillVerified(limit, i);
      } else if i == limit {
        OverflowVerified(limit);
      } else {
        ReplayVerified(limit);
      }
      SampleSender(if i <= limit then i else 0);
    }
    forall i, j | 0 <= i < j <= limit
      ensures !SameRequest(run[i].request, run[j].request)
    {
      SampleRequestsDiffer(i, j);
    }
  }

  /** Keeping every span within `bound` is what it takes, of a cache this size, to accept nothing twice
      in any history exactly when the bound is at most one above the size. */
  lemma ReplayBoundExactly(limit: nat, bound: nat)
    requires limit >= 1
    ensures (forall run, receiver :: History(run, limit, receiver) && BurstsWithin(run, bound) ==> AcceptsNothingTwice(run))
            <==> bound <= limit + 1
  {
    if bound <= limit + 1 {
      forall run, receiver | History(run, limit, receiver) && BurstsWithin(run, bound)
        ensures AcceptsNothingTwice(run)
      {
        LooserBound(run, bound, limit + 1);
        NoRequestAcceptedTwice(run, limit, receiver);
      }
    } else {
      var run := ReplayRun(limit);
      OneMoreAllowsReplay(limit);
      AllInOneBurst(run, bound);
      assert SameRequest(run[0].request, run[limit + 1].request);
      assert !AcceptsNothingTwice(run);
    }
  }

  lemma LooserBound(run: seq<Attempt>, a: nat, b: nat)
    requires BurstsWithin(run, a) && a <= b
    ensures BurstsWithin(run, b)
  {
    hide Burst;
  }

  lemma AllInOneBurst(run: seq<Attempt>, bound: nat)
    requires |run| <= bound
    ensures BurstsWithin(run, bound)
  {
    forall t ensures |Burst(run, t)| <= bound {
      BelowIsSmall(Burst(run, t), |run|);
    }
  }

  lemma {:induction false} BelowIsSmall(s: set<int>, n: nat)
    requires forall i :: i in s ==> 0 <= i < n
    ensures |s| <= n
  {
    if n == 0 {
      assert forall i :: i !in s;
    } else {
      BelowIsSmall(s - {n - 1}, n - 1);
      SubsetIsSmaller(s, (s - {n - 1}) + {n - 1});
    }
  }

  lemma SampleSender(i: nat)
    ensures SampleRequest(i).sender == SENDER && Acceptable(SampleRequest(i), SENDER, "me", 0)
  {
    SampleNonceLength(i);
  }

  lemma FillVerified(limit: nat, i: nat)
    requires i < limit
    ensures Verified(Filled(i), limit, SampleRequest(i), SENDER, "me", 0, true, Filled(i + 1))
  {
    SampleSender(i);
    FilledKeys(i, i);
    FilledSize(i);
    assert Pruned(Filled(i), 0) == Filled(i);
  }

  lemma OverflowVerified(limit: nat)
    requires limit >= 1
    ensures Verified(Filled(limit), limit, SampleRequest(limit), SENDER, "me", 0, true, Crowded(limit))
  {
    var full := Filled(limit);
    SampleSender(limit);
    FilledSize(limit);
    FilledKeys(limit, 0);
    FilledKeys(limit, limit);
    assert Pruned(full, 0) == full;
    assert Oldest(full, KeyOfRequest(SampleRequest(0)));
  }

  lemma CrowdedSize(limit: nat)
    requires limit >= 1
    ensures |Crowded(limit)| == limit
  {
    hide KeyOfRequest, SampleRequest;
    var full, first := Filled(limit), KeyOfRequest(SampleRequest(0));
    FilledSize(limit);
    FilledKeys(limit, 0);
    FilledKeys(limit, limit);
    assert (full - {first})[first := 0] == full;
    OneMoreKey(full - {first}, first, 0);
    OneMoreKey(full - {first}, KeyOfRequest(SampleRequest(limit)), 0);
  }

  lemma ReplayVerified(limit: nat)
    requires limit >= 1
    ensures Verified(Crowded(limit), limit, SampleRequest(0), SENDER, "me", 0, true, Replayed(limit))
  {
    SampleSender(0);
    CrowdedSize(limit);
    SampleKeysDiffer(0, limit);
    SampleKeysDiffer(0, 1);
    FilledKeys(limit, 1);
    assert Pruned(Crowded(limit), 0) == Crowded(limit);
    assert Oldest(Crowded(limit), KeyOfRequest(SampleRequest(1)));
  }
}
