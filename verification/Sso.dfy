/**
 Single sign-on tickets between nodes: issued and redeemed at one node, accepted at another.
 Encoding, signatures and hashes are parameters; what is assumed of them is stated where it is
 needed: hashes do not collide, and reading back an encoded ticket gives the ticket.
 */
module Sso {
  import opened Common

  const TICKET_TTL := 60
  const CLOCK_TOLERANCE := 30

  datatype Claim = Claim(
    audience: string, federation: string, issuer: string, ticketId: string, username: string,
    role: string, expert: bool, issuedAt: int, expiresAt: int)

  datatype Ticket = Ticket(claim: Claim, signature: string)

  datatype Scheme = Scheme(
    encode: Ticket -> string, decode: string -> Option<Ticket>, hash: string -> string,
    sign: (string, Claim) -> string, verify: (string, Claim, string) -> bool)

  ghost predicate Sound(c: Scheme) {
    && (forall t :: c.decode(c.encode(t)) == Some(t))
    && (forall x, y :: c.hash(x) == c.hash(y) ==> x == y)
  }

  datatype Entry = Entry(expiresAt: int, hash: string, redeemed: bool)

  type Pending = map<string, Entry>

  predicate KnownRole(role: string) { role == "admin" || role == "readonly" }

  function SafeRole(role: string): string { if KnownRole(role) then role else "readonly" }

  function Truncated(name: string): string { if |name| <= 128 then name else name[..128] }

  /** The claim a node makes for a user it has logged in. */
  function Claimed(issuer: string, target: string, federation: string, username: string, role: string, expert: bool,
                   ticketId: string, now: int): (claim: Claim)
    ensures KnownRole(claim.role) && (claim.expert ==> claim.role == "admin" && expert)
  {
    Claim(target, federation, issuer, ticketId, Truncated(username), SafeRole(role),
          expert && SafeRole(role) == "admin", now, now + TICKET_TTL)
  }

  function EncodedClaim(c: Scheme, claim: Claim): string {
    c.encode(Ticket(claim, c.sign(claim.issuer, claim)))
  }

  /** The checks the accepting node makes before it asks the issuer. */
  function Validate(c: Scheme, text: string, key: string, node: string, federation: string, now: int): Result<Claim> {
    if c.decode(text).None? then Error("invalid SSO ticket")
    else
      var t := c.decode(text).value;
      if !c.verify(key, t.claim, t.signature) then Error("invalid signature")
      else if t.claim.audience != node then Error("wrong SSO audience")
      else if t.claim.federation != federation then Error("wrong SSO federation")
      else if now > t.claim.expiresAt then Error("SSO ticket expired")
      else if t.claim.issuedAt > now + CLOCK_TOLERANCE then Error("SSO ticket clock is invalid")
      else if !KnownRole(t.claim.role) then Error("invalid SSO role")
      else if t.claim.role != "admin" then Ok(t.claim.(expert := false))
      else Ok(t.claim)
  }

  /** What the accepting node takes, and what it takes it for: a ticket the issuer's key verifies, made for
      this node and federation, neither expired nor from more than half a minute ahead, with a known role;
      only administrators keep the expert mark. */
  lemma ValidateExactly(c: Scheme, text: string, key: string, node: string, federation: string, now: int)
    ensures Validate(c, text, key, node, federation, now).Ok? <==>
              && c.decode(text).Some?
              && var t := c.decode(text).value;
                 && c.verify(key, t.claim, t.signature) && t.claim.audience == node && t.claim.federation == federation
                 && t.claim.issuedAt - 30 <= now <= t.claim.expiresAt && t.claim.role in ["admin", "readonly"]
    ensures Validate(c, text, key, node, federation, now).Ok? ==>
              var claim, made := Validate(c, text, key, node, federation, now).value, c.decode(text).value.claim;
              && claim.audience == made.audience && claim.federation == made.federation && claim.issuer == made.issuer
              && claim.ticketId == made.ticketId && claim.username == made.username && claim.role == made.role
              && claim.issuedAt == made.issuedAt && claim.expiresAt == made.expiresAt
              && (claim.expert <==> made.expert && made.role == "admin")
  {
  }

  predicate Redeemable(c: Scheme, pending: Pending, text: string, now: int) {
    && c.decode(text).Some?
    && var id := c.decode(text).value.claim.ticketId;
       id in pending && pending[id].hash == c.hash(text) && !pending[id].redeemed && now <= pending[id].expiresAt
  }

  function Spend(pending: Pending, id: string): Pending
    requires id in pending
  {
    pending[id := pending[id].(redeemed := true)]
  }

  /** A node's tickets, as it issues and redeems them. */
  class TicketDesk {
    const node: string
    const scheme: Scheme
    var pending: Pending

    constructor (node: string, scheme: Scheme)
      ensures pending == map[] && this.node == node && this.scheme == scheme
    {
      this.node, this.scheme, pending := node, scheme, map[];
    }

    method Issue(target: string, federation: string, username: string, role: string, expert: bool, ticketId: string, now: int)
      returns (text: string, ghost claim: Claim)
      modifies this
      ensures text == EncodedClaim(scheme, Claimed(node, target, federation, username, role, expert, ticketId, now))
      ensures text == scheme.encode(Ticket(claim, scheme.sign(node, claim)))
      ensures claim.audience == target && claim.federation == federation && claim.issuer == node && claim.ticketId == ticketId
      ensures claim.issuedAt == now && claim.expiresAt == now + 60
      ensures claim.username <= username && |claim.username| == if |username| > 128 then 128 else |username|
      ensures claim.role == (if role in ["admin", "readonly"] then role else "readonly")
      ensures claim.expert <==> expert && role == "admin"
      ensures pending == old(pending)[ticketId := Entry(now + 60, scheme.hash(text), false)]
    {
      var safeRole := if role == "admin" || role == "readonly" then role else "readonly";
      var name := if |username| > 128 then username[..128] else username;
      var made := Claim(target, federation, node, ticketId, name, safeRole, expert && safeRole == "admin", now, now + TICKET_TTL);
      claim := made;
      text := scheme.encode(Ticket(made, scheme.sign(node, made)));
      pending := pending[ticketId := Entry(made.expiresAt, scheme.hash(text), false)];
    }

    /** Redeem a ticket once; a refusal changes nothing. */
    method Redeem(text: string, now: int) returns (r: Result<string>)
      modifies this
      ensures r.Ok? <==> Redeemable(scheme, old(pending), text, now)
      ensures r.Ok? <==>
                && scheme.decode(text).Some? && scheme.decode(text).value.claim.ticketId in old(pending)
                && var entry := old(pending)[scheme.decode(text).value.claim.ticketId];
                   entry.hash == scheme.hash(text) && !entry.redeemed && entry.expiresAt >= now
      ensures r.Ok? ==>
                && scheme.decode(text).Some? && r.value == scheme.decode(text).value.claim.ticketId
                && pending.Keys == old(pending).Keys && (forall k :: k in pending && k != r.value ==> pending[k] == old(pending)[k])
                && pending[r.value] == Entry(old(pending)[r.value].expiresAt, scheme.hash(text), true)
      ensures !r.Ok? ==> pending == old(pending)
    {
      var decoded := scheme.decode(text);
      if decoded.None? { return Error("invalid SSO ticket"); }
      var id := decoded.value.claim.ticketId;
      if id !in pending || pending[id].hash != scheme.hash(text) { return Error("unknown SSO ticket"); }
      if pending[id].redeemed { return Error("SSO ticket already redeemed"); }
      if now > pending[id].expiresAt { return Error("SSO ticket expired"); }
      pending := pending[id := pending[id].(redeemed := true)];
      r := Ok(id);
    }
  }

  /******* All nodes together *******/

  datatype Phase = Asking | Answered | LoggedIn

  /** A login attempt at `node` with the ticket `text`, once its own checks have passed. */
  datatype Login = Login(node: string, federation: string, text: string, claim: Claim, phase: Phase)

  /** `issued` is the history of claims by issuer and ticket id; every node has its own pending tickets. */
  datatype World = World(
    pending: map<(string, string), Entry>, issued: map<(string, string), Claim>, logins: map<nat, Login>)

  const START := World(map[], map[], map[])

  function PendingAt(w: World, node: string): Pending {
    map key | key in w.pending && key.0 == node :: key.1 := w.pending[key]
  }

  datatype Event =
    | Issue(node: string, target: string, federation: string, username: string, role: string, expert: bool,
            ticketId: string, now: int)
    | Accept(login: nat, node: string, federation: string, text: string, key: string, now: int)
    | RedeemFor(login: nat, now: int)
    | RedeemAny(node: string, text: string, now: int)
    | Finish(login: nat)

  /** Redeeming at `node`, as `TicketDesk.Redeem` does it. */
  ghost predicate RedeemAt(c: Scheme, w: World, node: string, text: string, now: int, ok: bool, after: World) {
    && ok == Redeemable(c, PendingAt(w, node), text, now)
    && after == if ok then
                  var key := (node, c.decode(text).value.claim.ticketId);
                  w.(pending := w.pending[key := w.pending[key].(redeemed := true)])
                else w
  }

  /** Nodes act at any time, with any clock reading. Ticket ids are never drawn twice. The key an
      accepting node trusts for an issuer is its own affair; anybody may try to redeem anything. */
  ghost predicate Step(c: Scheme, w: World, e: Event, after: World) {
    match e
    case Issue(node, target, federation, username, role, expert, ticketId, now) =>
      && (node, ticketId) !in w.issued
      && var claim := Claimed(node, target, federation, username, role, expert, ticketId, now);
         after == w.(
           pending := w.pending[(node, ticketId) := Entry(now + TICKET_TTL, c.hash(EncodedClaim(c, claim)), false)],
           issued := w.issued[(node, ticketId) := claim])
    case Accept(login, node, federation, text, key, now) =>
      var r := Validate(c, text, key, node, federation, now);
      && login !in w.logins
      && after == if r.Ok? then w.(logins := w.logins[login := Login(node, federation, text, r.value, Asking)]) else w
    case RedeemFor(login, now) =>
      && login in w.logins && w.logins[login].phase == Asking
      && var l := w.logins[login];
         exists ok, mid :: RedeemAt(c, w, l.claim.issuer, l.text, now, ok, mid)
           && after == if ok then mid.(logins := w.logins[login := l.(phase := Answered)])
                       else w.(logins := w.logins - {login})
    case RedeemAny(node, text, now) =>
      exists ok :: RedeemAt(c, w, node, text, now, ok, after)
    case Finish(login) =>
      && login in w.logins && w.logins[login].phase == Answered
      && after == w.(logins := w.logins[login := w.logins[login].(phase := LoggedIn)])
  }

  function KeyOf(l: Login): (string, string) { (l.claim.issuer, l.claim.ticketId) }

  predicate Confirmed(l: Login) { l.phase != Asking }

  /** What is pending was issued, and its hash is that of the issued ticket. */
  predicate PendingSafe(c: Scheme, w: World, key: (string, string)) {
    && (key in w.pending <==> key in w.issued)
    && (key in w.pending ==>
          && w.issued[key].issuer == key.0 && w.issued[key].ticketId == key.1
          && w.pending[key].hash == c.hash(EncodedClaim(c, w.issued[key]))
          && w.pending[key].expiresAt == w.issued[key].expiresAt == w.issued[key].issuedAt + TICKET_TTL
          && KnownRole(w.issued[key].role) && (w.issued[key].expert ==> w.issued[key].role == "admin"))
  }

  predicate LoginSafe(c: Scheme, w: World, l: Login) {
    && c.decode(l.text).Some?
    && l.claim == (var q := c.decode(l.text).value.claim; if q.role == "admin" then q else q.(expert := false))
    && l.claim.audience == l.node && l.claim.federation == l.federation
    && (Confirmed(l) ==>
          && KeyOf(l) in w.pending && w.pending[KeyOf(l)].redeemed
          && KeyOf(l) in w.issued && l.text == EncodedClaim(c, w.issued[KeyOf(l)]))
  }

  ghost predicate Safe(c: Scheme, w: World) {
    && (forall key :: PendingSafe(c, w, key))
    && (forall i :: i in w.logins ==> LoginSafe(c, w, w.logins[i]))
    && (forall i, j :: i in w.logins && j in w.logins && i != j && Confirmed(w.logins[i]) && Confirmed(w.logins[j])
          ==> KeyOf(w.logins[i]) != KeyOf(w.logins[j]))
  }

  lemma RedeemKeepsPending(c: Scheme, w: World, node: string, text: string, now: int, ok: bool, after: World)
    requires Sound(c) && (forall key :: PendingSafe(c, w, key)) && RedeemAt(c, w, node, text, now, ok, after)
    ensures forall key :: PendingSafe(c, after, key)
    ensures after.logins == w.logins && after.issued == w.issued
    ensures forall key :: key in w.pending && w.pending[key].redeemed ==> key in after.pending && after.pending[key].redeemed
    ensures ok ==> c.decode(text).Some?
    ensures ok ==> var key := (node, c.decode(text).value.claim.ticketId);
                   && key in w.issued && key in w.pending && key in after.pending
                   && !w.pending[key].redeemed && after.pending[key].redeemed
                   && text == EncodedClaim(c, w.issued[key]) && now <= w.issued[key].issuedAt + TICKET_TTL
  {
    if ok {
      var key := (node, c.decode(text).value.claim.ticketId);
      assert PendingSafe(c, w, key);
      assert c.hash(text) == c.hash(EncodedClaim(c, w.issued[key]));
    }
    forall key ensures PendingSafe(c, after, key) {
      assert PendingSafe(c, w, key);
    }
  }

  lemma IssueKeepsSafe(c: Scheme, w: World, e: Event, after: World)
    requires Sound(c) && Safe(c, w) && Step(c, w, e, after) && e.Issue?
    ensures Safe(c, after)
  {
    forall key ensures PendingSafe(c, after, key) {
      assert PendingSafe(c, w, key);
    }
    forall i | i in after.logins ensures LoginSafe(c, after, after.logins[i]) {
      assert LoginSafe(c, w, w.logins[i]);
      assert PendingSafe(c, w, KeyOf(w.logins[i]));
    }
  }

  /** A redemption that changes no login but perhaps the one it is for. */
  lemma RedeemKeepsLogin(c: Scheme, w: World, node: string, text: string, now: int, ok: bool, after: World, l: Login)
    requires Sound(c) && (forall key :: PendingSafe(c, w, key)) && RedeemAt(c, w, node, text, now, ok, after)
    requires LoginSafe(c, w, l)
    ensures LoginSafe(c, after, l)
    ensures ok && l.claim.issuer == node && l.text == text ==> LoginSafe(c, after, l.(phase := Answered))
    ensures ok && Confirmed(l) ==> KeyOf(l) != (node, c.decode(text).value.claim.ticketId)
  {
    RedeemKeepsPending(c, w, node, text, now, ok, after);
    hide RedeemAt, Redeemable, PendingSafe;
  }

  lemma RedeemForKeepsSafe(c: Scheme, w: World, login: nat, now: int, after: World)
    requires Sound(c) && Safe(c, w) && Step(c, w, RedeemFor(login, now), after)
    ensures Safe(c, after)
  {
    var l := w.logins[login];
    var ok, mid :| RedeemAt(c, w, l.claim.issuer, l.text, now, ok, mid)
      && after == if ok then mid.(logins := w.logins[login := l.(phase := Answered)]) else w.(logins := w.logins - {login});
    RedeemKeepsPending(c, w, l.claim.issuer, l.text, now, ok, mid);
    assert LoginSafe(c, w, l);
    forall i | i in w.logins
      ensures LoginSafe(c, mid, w.logins[i])
      ensures ok ==> LoginSafe(c, mid, l.(phase := Answered))
      ensures ok && Confirmed(w.logins[i]) ==> KeyOf(w.logins[i]) != KeyOf(l)
    {
      RedeemKeepsLogin(c, w, l.claim.issuer, l.text, now, ok, mid, w.logins[i]);
      RedeemKeepsLogin(c, w, l.claim.issuer, l.text, now, ok, mid, l);
    }
    hide *;
    if ok {
      AnsweredIsSafe(c, w, mid, login);
    } else {
      ForgottenIsSafe(c, w, login);
    }
  }

  lemma AnsweredIsSafe(c: Scheme, w: World, mid: World, login: nat)
    requires Safe(c, w) && login in w.logins && forall key :: PendingSafe(c, mid, key)
    requires LoginSafe(c, mid, w.logins[login].(phase := Answered))
    requires forall i :: i in w.logins ==> LoginSafe(c, mid, w.logins[i])
    requires forall i :: i in w.logins && Confirmed(w.logins[i]) ==> KeyOf(w.logins[i]) != KeyOf(w.logins[login])
    ensures Safe(c, mid.(logins := w.logins[login := w.logins[login].(phase := Answered)]))
  {
    var after := mid.(logins := w.logins[login := w.logins[login].(phase := Answered)]);
    forall key ensures PendingSafe(c, after, key) {
      assert PendingSafe(c, mid, key);
    }
    hide PendingSafe;
    forall i | i in after.logins ensures LoginSafe(c, after, after.logins[i]) {
      assert i != login ==> LoginSafe(c, mid, w.logins[i]);
    }
  }

  lemma ForgottenIsSafe(c: Scheme, w: World, login: nat)
    requires Safe(c, w)
    ensures Safe(c, w.(logins := w.logins - {login}))
  {
    var after := w.(logins := w.logins - {login});
    forall key ensures PendingSafe(c, after, key) {
      assert PendingSafe(c, w, key);
    }
    hide PendingSafe;
    forall i | i in after.logins ensures LoginSafe(c, after, after.logins[i]) {
      assert LoginSafe(c, w, w.logins[i]);
    }
  }

  lemma RedeemAnyKeepsSafe(c: Scheme, w: World, node: string, text: string, now: int, ok: bool, after: World)
    requires Sound(c) && Safe(c, w) && RedeemAt(c, w, node, text, now, ok, after)
    ensures Safe(c, after)
  {
    RedeemKeepsPending(c, w, node, text, now, ok, after);
    forall i | i in after.logins ensures LoginSafe(c, after, after.logins[i]) {
      RedeemKeepsLogin(c, w, node, text, now, ok, after, w.logins[i]);
    }
  }

  /** A login put in place of another, or of none: what the tickets say of the rest is unchanged. */
  lemma ReplacedLoginIsSafe(c: Scheme, w: World, login: nat, l: Login)
    requires Safe(c, w) && LoginSafe(c, w, l)
    requires Confirmed(l) ==> login in w.logins && Confirmed(w.logins[login]) && KeyOf(w.logins[login]) == KeyOf(l)
    ensures Safe(c, w.(logins := w.logins[login := l]))
  {
    var after := w.(logins := w.logins[login := l]);
    forall key ensures PendingSafe(c, after, key) {
      assert PendingSafe(c, w, key);
    }
    forall other: Login ensures LoginSafe(c, after, other) <==> LoginSafe(c, w, other) {
    }
    hide PendingSafe, LoginSafe, Confirmed, KeyOf;
  }

  lemma AcceptedIsSafe(c: Scheme, w: World, node: string, federation: string, text: string, key: string, now: int)
    requires Validate(c, text, key, node, federation, now).Ok?
    ensures LoginSafe(c, w, Login(node, federation, text, Validate(c, text, key, node, federation, now).value, Asking))
  {
  }

  lemma AcceptKeepsSafe(c: Scheme, w: World, e: Event, after: World)
    requires Safe(c, w) && Step(c, w, e, after) && e.Accept?
    ensures Safe(c, after)
  {
    var r := Validate(c, e.text, e.key, e.node, e.federation, e.now);
    hide Safe, LoginSafe, Validate;
    if r.Ok? {
      AcceptedIsSafe(c, w, e.node, e.federation, e.text, e.key, e.now);
      ReplacedLoginIsSafe(c, w, e.login, Login(e.node, e.federation, e.text, r.value, Asking));
    }
  }

  lemma FinishedIsSafe(c: Scheme, w: World, login: nat)
    requires Safe(c, w) && login in w.logins && w.logins[login].phase == Answered
    ensures LoginSafe(c, w, w.logins[login].(phase := LoggedIn))
  {
    assert LoginSafe(c, w, w.logins[login]);
    hide PendingSafe, Safe;
  }

  lemma FinishKeepsSafe(c: Scheme, w: World, login: nat, after: World)
    requires Safe(c, w) && Step(c, w, Finish(login), after)
    ensures Safe(c, after)
  {
    hide Safe, LoginSafe;
    FinishedIsSafe(c, w, login);
    ReplacedLoginIsSafe(c, w, login, w.logins[login].(phase := LoggedIn));
  }

  lemma StepKeepsSafe(c: Scheme, w: World, e: Event, after: World)
    requires Sound(c) && Safe(c, w) && Step(c, w, e, after)
    ensures Safe(c, after)
  {
    match e
    case Issue(_, _, _, _, _, _, _, _) => IssueKeepsSafe(c, w, e, after);
    case RedeemFor(login, now) => RedeemForKeepsSafe(c, w, login, now, after);
    case RedeemAny(node, text, now) =>
      var ok :| RedeemAt(c, w, node, text, now, ok, after);
      RedeemAnyKeepsSafe(c, w, node, text, now, ok, after);
    case Accept(_, _, _, _, _, _) => AcceptKeepsSafe(c, w, e, after);
    case Finish(login) => FinishKeepsSafe(c, w, login, after);
  }

  /** In the world as at one desk: a redemption is `TicketDesk.Redeem` at its node and touches no other. */
  lemma RedeemActsAtOneNode(c: Scheme, w: World, node: string, text: string, now: int, ok: bool, after: World, other: string)
    requires RedeemAt(c, w, node, text, now, ok, after)
    ensures ok ==> PendingAt(after, node) == Spend(PendingAt(w, node), c.decode(text).value.claim.ticketId)
    ensures !ok || other != node ==> PendingAt(after, other) == PendingAt(w, other)
  {
  }

  /** A ticket's way: the node it was made for takes it from half a minute before its issue to a minute after,
      its issuer confirms it up to a minute after, and then the user is logged in as issued. */
  lemma IssuedTicketLogsIn(c: Scheme, w: World, issued: Event, after: World, login: nat, key: string, accepted: int, redeemed: int)
    returns (w2: World, w3: World, w4: World)
    requires Sound(c) && issued.Issue? && Step(c, w, issued, after) && login !in after.logins
    requires var claim := Claimed(issued.node, issued.target, issued.federation, issued.username, issued.role, issued.expert,
                                  issued.ticketId, issued.now);
             c.verify(key, claim, c.sign(issued.node, claim))
    ensures var claim := Claimed(issued.node, issued.target, issued.federation, issued.username, issued.role, issued.expert,
                                 issued.ticketId, issued.now);
            var text := c.encode(Ticket(claim, c.sign(issued.node, claim)));
            && Step(c, after, Accept(login, issued.target, issued.federation, text, key, accepted), w2)
            && (login in w2.logins <==> issued.now - 30 <= accepted <= issued.now + 60)
            && (login in w2.logins ==>
                  && Step(c, w2, RedeemFor(login, redeemed), w3)
                  && (login in w3.logins <==> redeemed <= issued.now + 60)
                  && (login in w3.logins ==>
                        && Step(c, w3, Finish(login), w4)
                        && w4.logins[login] == Login(issued.target, issued.federation, text, claim, LoggedIn)))
  {
    var claim := Claimed(issued.node, issued.target, issued.federation, issued.username, issued.role, issued.expert,
                         issued.ticketId, issued.now);
    var text := EncodedClaim(c, claim);
    var r := Validate(c, text, key, issued.target, issued.federation, accepted);
    ValidateExactly(c, text, key, issued.target, issued.federation, accepted);
    w2 := if r.Ok? then after.(logins := after.logins[login := Login(issued.target, issued.federation, text, r.value, Asking)]) else after;
    w3, w4 := w2, w2;
    if r.Ok? {
      assert r.value == claim;
      w3 := Answer(c, w2, login, issued.ticketId, redeemed);
      if login in w3.logins {
        w4 := w3.(logins := w3.logins[login := w3.logins[login].(phase := LoggedIn)]);
      }
    }
  }

  /** The issuer's answer about a ticket it still holds unspent. */
  lemma Answer(c: Scheme, w: World, login: nat, ticketId: string, now: int) returns (after: World)
    requires login in w.logins && w.logins[login].phase == Asking
    requires var l := w.logins[login];
             && c.decode(l.text).Some? && c.decode(l.text).value.claim.ticketId == ticketId
             && (l.claim.issuer, ticketId) in w.pending
             && var entry := w.pending[(l.claim.issuer, ticketId)];
                entry.hash == c.hash(l.text) && !entry.redeemed
    ensures Step(c, w, RedeemFor(login, now), after)
    ensures login in after.logins <==> now <= w.pending[(w.logins[login].claim.issuer, ticketId)].expiresAt
    ensures login in after.logins ==> after.logins[login] == w.logins[login].(phase := Answered)
  {
    var l := w.logins[login];
    var key := (l.claim.issuer, ticketId);
    if now <= w.pending[key].expiresAt {
      var mid := w.(pending := w.pending[key := w.pending[key].(redeemed := true)]);
      assert RedeemAt(c, w, l.claim.issuer, l.text, now, true, mid);
      after := mid.(logins := w.logins[login := l.(phase := Answered)]);
    } else {
      assert RedeemAt(c, w, l.claim.issuer, l.text, now, false, w);
      after := w.(logins := w.logins - {login});
    }
  }

  ghost predicate Run(c: Scheme, worlds: seq<World>, events: seq<Event>) {
    && |worlds| == |events| + 1 && worlds[0] == START
    && forall i :: 0 <= i < |events| ==> Step(c, worlds[i], events[i], worlds[i + 1])
  }

  lemma {:induction false} RunsStaySafe(c: Scheme, worlds: seq<World>, events: seq<Event>, i: nat)
    requires Sound(c) && Run(c, worlds, events) && i < |worlds|
    ensures Safe(c, worlds[i])
  {
    if i > 0 {
      RunsStaySafe(c, worlds, events, i - 1);
      StepKeepsSafe(c, worlds[i - 1], events[i - 1], worlds[i]);
    }
  }

  /** A login came from a ticket the claimed issuer issued: for that node and federation, with the
      user and role it was issued for, and with expert rights only for an administrator. */
  lemma LoginsWereIssued(c: Scheme, worlds: seq<World>, events: seq<Event>, i: nat, login: nat)
    requires Sound(c) && Run(c, worlds, events) && i < |worlds|
    requires login in worlds[i].logins && worlds[i].logins[login].phase == LoggedIn
    ensures var l, issued := worlds[i].logins[login], worlds[i].issued;
            && KeyOf(l) in issued && l.claim == issued[KeyOf(l)] && l.text == EncodedClaim(c, l.claim)
            && l.node == l.claim.audience && l.federation == l.claim.federation
            && KnownRole(l.claim.role) && (l.claim.expert ==> l.claim.role == "admin")
  {
    RunsStaySafe(c, worlds, events, i);
    var l := worlds[i].logins[login];
    assert LoginSafe(c, worlds[i], l);
    assert PendingSafe(c, worlds[i], KeyOf(l));
  }

  /** One issued ticket, one login. */
  lemma OneLoginPerTicket(c: Scheme, worlds: seq<World>, events: seq<Event>, i: nat, a: nat, b: nat)
    requires Sound(c) && Run(c, worlds, events) && i < |worlds|
    requires a in worlds[i].logins && worlds[i].logins[a].phase == LoggedIn
    requires b in worlds[i].logins && worlds[i].logins[b].phase == LoggedIn
    requires a != b
    ensures KeyOf(worlds[i].logins[a]) != KeyOf(worlds[i].logins[b])
    ensures worlds[i].logins[a].text != worlds[i].logins[b].text
  {
    RunsStaySafe(c, worlds, events, i);
    assert LoginSafe(c, worlds[i], worlds[i].logins[a]);
    assert LoginSafe(c, worlds[i], worlds[i].logins[b]);
  }

  /** An answer to a redemption is given within a minute of the ticket's issue, by the issuer's clock. */
  lemma RedeemedInTime(c: Scheme, worlds: seq<World>, events: seq<Event>, i: nat, login: nat)
    requires Sound(c) && Run(c, worlds, events) && i < |events| && events[i].RedeemFor? && events[i].login == login
    requires login in worlds[i + 1].logins
    ensures var l := worlds[i + 1].logins[login];
            KeyOf(l) in worlds[i].issued && events[i].now <= worlds[i].issued[KeyOf(l)].issuedAt + TICKET_TTL
  {
    RunsStaySafe(c, worlds, events, i);
    var w, l := worlds[i], worlds[i].logins[login];
    assert Step(c, w, events[i], worlds[i + 1]) && LoginSafe(c, w, l);
    var ok, mid :| RedeemAt(c, w, l.claim.issuer, l.text, events[i].now, ok, mid)
      && worlds[i + 1] == if ok then mid.(logins := w.logins[login := l.(phase := Answered)]) else w.(logins := w.logins - {login});
    RedeemKeepsPending(c, w, l.claim.issuer, l.text, events[i].now, ok, mid);
  }
}
