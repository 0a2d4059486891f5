/** One server's federation state, updated in place as events arrive. */
module Replica {
  import opened Common
  import opened Membership
  import opened LogReplay

  class Replica {
    const scheme: Scheme
    var federationId: string
    var nodes: map<string, Member>
    var events: map<string, Event>

    ghost function View(): State
      reads this
    {
      State(federationId, nodes, events)
    }

    constructor (scheme: Scheme, federationId: string)
      ensures this.scheme == scheme && View() == Empty(federationId)
    {
      this.scheme := scheme;
      this.federationId := federationId;
      this.nodes, this.events := map[], map[];
    }

    method KeyFor(e: Event) returns (key: Result<string>)
      ensures key == IssuerKey(View(), e)
    {
      if e.body.issuer in nodes {
        if nodes[e.body.issuer].revoked {
          return Error("event issuer is revoked");
        }
        return Ok(nodes[e.body.issuer].publicKey);
      }
      if e.body.kind == Joined && e.body.issuer == e.body.subject.nodeId && nodes == map[] {
        return Ok(e.body.subject.publicKey);
      }
      key := Error("unknown event issuer");
    }

    /** True when recorded, false when there was nothing to do, an error when refused;
        the state changes in the first case only. */
    method ApplyEvent(e: Event) returns (r: Result<bool>)
      modifies this
      ensures View() == Next(scheme, old(View()), e)
      ensures r == Ok(true) <==> Genuine(scheme, old(View()), e) && Fitting(old(View()), e) && !Stale(old(View()), e)
      ensures match Apply(scheme, old(View()), e)
              case Applied(_) => r == Ok(true)
              case Ignored => r == Ok(false) && View() == old(View())
              case Rejected(reason) => r == Error(reason) && View() == old(View())
    {
      OutcomeExactly(scheme, View(), e);
      if e.body.federationId != federationId { return Error("event belongs to another federation"); }
      if e.body.kind == Unsupported { return Error("unsupported event kind"); }
      if e.eventId in events { return Ok(false); }
      var key := KeyFor(e);
      if key.Error? { return Error(key.reason); }
      if !scheme.verify(key.value, e.body, e.signature) { return Error("invalid signature"); }
      if e.eventId != scheme.digest(e.body, e.signature) { return Error("invalid event id"); }
      var id := e.body.subject.nodeId;
      if id == "" { return Error("missing subject node id"); }
      var known := id in nodes;
      if e.body.kind == Joined {
        if known && nodes[id].revoked { return Error("node is revoked"); }
        if e.body.subject.publicKey == "" { return Error("missing subject public key"); }
        if known && nodes[id].publicKey != e.body.subject.publicKey { return Error("node key mismatch"); }
        nodes := nodes[id := MemberFrom(e)];
      } else if e.body.kind == Updated {
        if e.body.issuer != id { return Error("nodes may only update their own metadata"); }
        if !known { return Error("unknown node"); }
        if nodes[id].revoked { return Error("node is revoked"); }
        if e.body.subject.publicKey != nodes[id].publicKey { return Error("node key mismatch"); }
        if e.body.createdAt < nodes[id].updatedAt { return Ok(false); }
        nodes := nodes[id := MemberFrom(e)];
      } else {
        if !known { return Error("unknown node"); }
        nodes := nodes[id := nodes[id].(revoked := true, revokedAt := Max(e.body.createdAt, nodes[id].revokedAt))];
      }
      events := events[e.eventId := e];
      r := Ok(true);
    }

    /** A peer's events are offered oldest first; refusals are skipped. */
    method AcceptSync(offered: seq<Event>)
      modifies this
      ensures View() == Offer(scheme, old(View()), Sorted(offered))
    {
      hide Apply, Sorted, Next;
      var ordered := Sorted(offered);
      for i := 0 to |ordered|
        invariant View() == Offer(scheme, old(View()), ordered[..i])
      {
        assert ordered[..i + 1][..i] == ordered[..i];
        var r := ApplyEvent(ordered[i]);
      }
      assert ordered[..|ordered|] == ordered;
    }

    /** A join applies the enroller's listing, gives up at the first refusal, and in the
        end insists on having been enrolled itself. */
    method Join(listing: seq<Event>, self: string) returns (r: Result<()>)
      modifies this
      ensures r.Ok? <==> Replay(scheme, old(View()), Sorted(listing)).Ok? && self in nodes
      ensures Replay(scheme, old(View()), Sorted(listing)).Ok? ==>
                Replay(scheme, old(View()), Sorted(listing)) == Ok(View())
    {
      hide Apply, Sorted;
      var ordered := Sorted(listing);
      for i := 0 to |ordered|
        invariant Replay(scheme, old(View()), ordered[..i]) == Ok(View())
      {
        assert ordered[..i + 1][..i] == ordered[..i];
        var applied := ApplyEvent(ordered[i]);
        if applied.Error? {
          ReplayStaysFailed(scheme, old(View()), ordered, i + 1);
          return Error(applied.reason);
        }
      }
      assert ordered[..|ordered|] == ordered;
      if self !in nodes {
        return Error("pairing response omitted joining node");
      }
      r := Ok(());
    }
  }

  lemma {:induction false} ReplayStaysFailed(c: Scheme, s: State, events: seq<Event>, n: nat)
    requires n <= |events| && Replay(c, s, events[..n]).Error?
    ensures Replay(c, s, events).Error?
    decreases |events|
  {
    if n == |events| {
      assert events[..n] == events;
    } else {
      assert events[..|events| - 1][..n] == events[..n];
      ReplayStaysFailed(c, s, events[..|events| - 1], n);
    }
  }
}
