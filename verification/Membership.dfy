/**
 The signed membership log of a federation: one replica's state, and what offering it
 an event does. Signatures and hashes are parameters, so every result below holds for
 whatever scheme the replica uses.
 */
module Membership {
  import opened Common

  datatype Kind = Joined | Updated | Revoked | Unsupported

  /** An event's subject as sent. `carried` is its own `_revoked_at` entry, 0 if absent. */
  datatype Subject = Subject(nodeId: string, publicKey: string, profile: string, carried: int)

  datatype Unsigned = Unsigned(
    federationId: string, kind: Kind, issuer: string, subject: Subject, createdAt: int, nonce: string)

  datatype Event = Event(body: Unsigned, signature: string, eventId: string)

  datatype Member = Member(publicKey: string, profile: string, revoked: bool, updatedAt: int, revokedAt: int)

  datatype State = State(federationId: string, nodes: map<string, Member>, events: map<string, Event>)

  datatype Scheme = Scheme(verify: (string, Unsigned, string) -> bool, digest: (Unsigned, string) -> string)

  function Empty(federationId: string): State {
    State(federationId, map[], map[])
  }

  function Max(a: int, b: int): int { if a < b then b else a }

  datatype Outcome = Applied(state: State) | Ignored | Rejected(reason: string)

  /** The key an event must be signed with, given who is known. */
  function IssuerKey(s: State, e: Event): Result<string> {
    if e.body.issuer in s.nodes then
      if s.nodes[e.body.issuer].revoked then Error("event issuer is revoked")
      else Ok(s.nodes[e.body.issuer].publicKey)
    else if e.body.kind == Joined && e.body.issuer == e.body.subject.nodeId && s.nodes == map[] then
      Ok(e.body.subject.publicKey)
    else Error("unknown event issuer")
  }

  function MemberFrom(e: Event): Member {
    Member(e.body.subject.publicKey, e.body.subject.profile, false, e.body.createdAt, e.body.subject.carried)
  }

  function Record(s: State, e: Event, member: Member): State {
    s.(nodes := s.nodes[e.body.subject.nodeId := member], events := s.events[e.eventId := e])
  }

  /** What the event's kind does once its signature and id have been accepted. */
  function ApplyKind(s: State, e: Event): Outcome {
    var id := e.body.subject.nodeId;
    var known := id in s.nodes;
    match e.body.kind
    case Joined =>
      if known && s.nodes[id].revoked then Rejected("node is revoked")
      else if e.body.subject.publicKey == "" then Rejected("missing subject public key")
      else if known && s.nodes[id].publicKey != e.body.subject.publicKey then Rejected("node key mismatch")
      else Applied(Record(s, e, MemberFrom(e)))
    case Updated =>
      if e.body.issuer != id then Rejected("nodes may only update their own metadata")
      else if !known then Rejected("unknown node")
      else if s.nodes[id].revoked then Rejected("node is revoked")
      else if e.body.subject.publicKey != s.nodes[id].publicKey then Rejected("node key mismatch")
      else if e.body.createdAt < s.nodes[id].updatedAt then Ignored
      else Applied(Record(s, e, MemberFrom(e)))
    case Revoked =>
      if !known then Rejected("unknown node")
      else Applied(Record(s, e, s.nodes[id].(revoked := true, revokedAt := Max(e.body.createdAt, s.nodes[id].revokedAt))))
    case Unsupported => Rejected("unsupported event kind")
  }

  function Apply(c: Scheme, s: State, e: Event): Outcome {
    if e.body.federationId != s.federationId then Rejected("event belongs to another federation")
    else if e.body.kind == Unsupported then Rejected("unsupported event kind")
    else if e.eventId in s.events then Ignored
    else if IssuerKey(s, e).Error? then Rejected(IssuerKey(s, e).reason)
    else if !c.verify(IssuerKey(s, e).value, e.body, e.signature) then Rejected("invalid signature")
    else if e.eventId != c.digest(e.body, e.signature) then Rejected("invalid event id")
    else if e.body.subject.nodeId == "" then Rejected("missing subject node id")
    else ApplyKind(s, e)
  }

  /** The state after an offer: anything but an applied event leaves no trace. */
  function Next(c: Scheme, s: State, e: Event): State {
    match Apply(c, s, e)
    case Applied(t) => t
    case Ignored => s
    case Rejected(_) => s
  }

  function Offer(c: Scheme, s: State, offers: seq<Event>): State {
    if offers == [] then s
    else Next(c, Offer(c, s, offers[..|offers| - 1]), offers[|offers| - 1])
  }

  /** Every state a replica can reach: any events, offered in any order, to an empty log. */
  function Run(c: Scheme, federationId: string, offers: seq<Event>): State {
    Offer(c, Empty(federationId), offers)
  }

  lemma {:induction false} OfferConcat(c: Scheme, s: State, a: seq<Event>, b: seq<Event>)
    ensures Offer(c, s, a + b) == Offer(c, Offer(c, s, a), b)
  {
    hide Next;
    if b == [] {
      assert a + b == a;
    } else {
      var n := |b| - 1;
      assert (a + b)[..|a + b| - 1] == a + b[..n];
      OfferConcat(c, s, a, b[..n]);
    }
  }

  /******* The view as a function of the recorded events *******/

  ghost predicate Recorded(events: map<string, Event>, e: Event) {
    e.eventId in events && events[e.eventId] == e
  }

  predicate About(e: Event, kind: Kind, id: string) {
    e.body.kind == kind && e.body.subject.nodeId == id
  }

  ghost predicate IsMember(events: map<string, Event>, id: string) {
    exists e :: Recorded(events, e) && About(e, Joined, id)
  }

  ghost predicate HasKey(events: map<string, Event>, id: string, key: string) {
    exists e :: Recorded(events, e) && About(e, Joined, id) && e.body.subject.publicKey == key
  }

  ghost predicate IsRevoked(events: map<string, Event>, id: string) {
    exists e :: Recorded(events, e) && About(e, Revoked, id)
  }

  /** `t` is the latest recorded revocation of `id`, and 0 when all are older than that. */
  ghost predicate RevocationTime(events: map<string, Event>, id: string, t: int) {
    && t >= 0
    && (forall e :: Recorded(events, e) && About(e, Revoked, id) ==> e.body.createdAt <= t)
    && (t > 0 ==> exists e :: Recorded(events, e) && About(e, Revoked, id) && e.body.createdAt == t)
  }

  /** No recorded subject brings a revocation time of its own. */
  ghost predicate CleanSubjects(events: map<string, Event>) {
    forall e :: Recorded(events, e) && e.body.kind != Revoked ==> e.body.subject.carried == 0
  }

  /** What the log says of one node is what the view shows of it. */
  ghost predicate ViewFollowsLogAt(s: State, id: string) {
    && (id in s.nodes <==> IsMember(s.events, id))
    && (id in s.nodes ==>
          && HasKey(s.events, id, s.nodes[id].publicKey)
          && (forall key :: HasKey(s.events, id, key) ==> s.nodes[id].publicKey == key)
          && (s.nodes[id].revoked <==> IsRevoked(s.events, id)))
    && (IsRevoked(s.events, id) ==> id in s.nodes)
  }

  ghost predicate ViewFollowsLog(s: State) {
    forall id :: ViewFollowsLogAt(s, id)
  }

  /******* An offer, said of the state and the event *******/

  /** An active member signed the event with its key, or a first member with the key it brings. */
  ghost predicate Signed(c: Scheme, s: State, e: Event) {
    var issuer := e.body.issuer;
    if issuer in s.nodes then !s.nodes[issuer].revoked && c.verify(s.nodes[issuer].publicKey, e.body, e.signature)
    else s.nodes == map[] && e.body.kind == Joined && issuer == e.body.subject.nodeId
         && c.verify(e.body.subject.publicKey, e.body, e.signature)
  }

  /** An event of this federation and a known kind, not recorded yet, signed, under its own digest and
      about some node. */
  ghost predicate Genuine(c: Scheme, s: State, e: Event) {
    && e.body.federationId == s.federationId && e.body.kind in {Joined, Updated, Revoked} && e.eventId !in s.events
    && Signed(c, s, e) && e.eventId == c.digest(e.body, e.signature) && e.body.subject.nodeId != ""
  }

  /** The subject is the active member with this key. */
  ghost predicate Standing(s: State, e: Event) {
    var id := e.body.subject.nodeId;
    id in s.nodes && !s.nodes[id].revoked && s.nodes[id].publicKey == e.body.subject.publicKey
  }

  /** An enrolment is for a newcomer with a key, or renews a standing one; an update is a standing
      node's own; a revocation is of any member. */
  ghost predicate Fitting(s: State, e: Event) {
    match e.body.kind
    case Joined => e.body.subject.publicKey != "" && (e.body.subject.nodeId in s.nodes ==> Standing(s, e))
    case Updated => Standing(s, e) && e.body.issuer == e.body.subject.nodeId
    case Revoked => e.body.subject.nodeId in s.nodes
    case Unsupported => false
  }

  /** An update from before the one the record shows. */
  predicate Stale(s: State, e: Event) {
    e.body.kind == Updated && e.body.subject.nodeId in s.nodes && e.body.createdAt < s.nodes[e.body.subject.nodeId].updatedAt
  }

  /** What becomes of an event, exactly: applied when genuine, fitting and not stale; ignored when
      recorded already or stale; refused otherwise. */
  lemma OutcomeExactly(c: Scheme, s: State, e: Event)
    ensures Apply(c, s, e).Applied? <==> Genuine(c, s, e) && Fitting(s, e) && !Stale(s, e)
    ensures Apply(c, s, e).Ignored? <==>
              || (e.body.federationId == s.federationId && e.body.kind in {Joined, Updated, Revoked} && e.eventId in s.events)
              || (Genuine(c, s, e) && Fitting(s, e) && Stale(s, e))
  {
  }

  /** What an applied event stores of its subject: an enrolment or update the key and metadata it
      brings, dated by it; a revocation the mark and the later of the two times, keeping the rest. */
  lemma StoredRecord(c: Scheme, s: State, e: Event)
    requires Apply(c, s, e).Applied?
    ensures var now := Apply(c, s, e).state.nodes[e.body.subject.nodeId];
            if e.body.kind != Revoked then
              && now.publicKey == e.body.subject.publicKey && now.profile == e.body.subject.profile && !now.revoked
              && now.updatedAt == e.body.createdAt && now.revokedAt == e.body.subject.carried
            else
              var before := s.nodes[e.body.subject.nodeId];
              && now.publicKey == before.publicKey && now.profile == before.profile && now.revoked
              && now.updatedAt == before.updatedAt
              && now.revokedAt >= before.revokedAt && now.revokedAt >= e.body.createdAt
              && now.revokedAt in {before.revokedAt, e.body.createdAt}
  {
  }

  /** Who may have issued an applied event, and what it adds to the log. */
  lemma AppliedFacts(c: Scheme, s: State, e: Event)
    requires Apply(c, s, e).Applied?
    ensures var t := Apply(c, s, e).state;
            && e.eventId !in s.events && t.events == s.events[e.eventId := e]
            && (forall x :: Recorded(t.events, x) <==> Recorded(s.events, x) || x == e)
            && e.body.subject.nodeId in t.nodes
            && (forall id :: id != e.body.subject.nodeId ==> (id in t.nodes <==> id in s.nodes) && (id in s.nodes ==> t.nodes[id] == s.nodes[id]))
            && t.federationId == s.federationId
    ensures || (e.body.issuer in s.nodes && !s.nodes[e.body.issuer].revoked)
            || (s.nodes == map[] && e.body.kind == Joined && e.body.issuer == e.body.subject.nodeId)
  {
  }
}
