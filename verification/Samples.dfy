/**
 A scheme whose event ids never collide, and events under it: the examples of replicas that do not
 agree are not owed to collisions.
 */
module Samples {
  import opened Common
  import opened Membership
  import opened Agreement
  import opened Convergence
  import opened RestAgreement

  /******* Texts that can be told apart *******/

  /** A text that shows where it ends. */
  function Field(s: string): string {
    if s == [] then "0" else "1" + [s[0]] + Field(s[1..])
  }

  lemma {:induction false} FieldsDiffer(a: string, b: string, x: string, y: string)
    requires Field(a) + x == Field(b) + y
    ensures a == b && x == y
  {
    var text := Field(a) + x;
    FieldStarts(a, x);
    FieldStarts(b, y);
    if a != [] && b != [] {
      FieldsDiffer(a[1..], b[1..], x, y);
      assert a == [a[0]] + a[1..] && b == [b[0]] + b[1..];
    }
  }

  lemma FieldStarts(s: string, x: string)
    ensures |Field(s) + x| > 0
    ensures if s == [] then (Field(s) + x)[0] == '0' && (Field(s) + x)[1..] == x
            else (Field(s) + x)[0] == '1' && |Field(s) + x| > 1 && (Field(s) + x)[1] == s[0]
                 && (Field(s) + x)[2..] == Field(s[1..]) + x
  {
    if s == [] {
      assert ("0" + x)[1..] == x;
    } else {
      Opened("1" + [s[0]], Field(s[1..]), x);
    }
    hide Field;
  }

  lemma Opened(head: string, rest: string, x: string)
    requires |head| == 2
    ensures (head + rest + x)[..2] == head && (head + rest + x)[2..] == rest + x
  {
  }

  function NumberText(n: int): string {
    if n < 0 then "-" + seq(-n, _ => '1') else "+" + seq(n, _ => '1')
  }

  lemma NumbersDiffer(m: int, n: int)
    requires NumberText(m) == NumberText(n)
    ensures m == n
  {
    assert NumberText(m)[0] == (if m < 0 then '-' else '+') && |NumberText(m)| == 1 + if m < 0 then -m else m;
    assert NumberText(n)[0] == (if n < 0 then '-' else '+') && |NumberText(n)| == 1 + if n < 0 then -n else n;
  }

  function KindText(kind: Kind): string {
    match kind
    case Joined => "j"
    case Updated => "u"
    case Revoked => "r"
    case Unsupported => "x"
  }

  lemma KindsDiffer(j: Kind, k: Kind)
    requires KindText(j) == KindText(k)
    ensures j == k
  {
    assert KindText(j)[0] == KindText(k)[0];
  }

  function Fields(parts: seq<string>): string {
    if parts == [] then "" else Field(parts[0]) + Fields(parts[1..])
  }

  lemma {:induction false} PartsDiffer(a: seq<string>, b: seq<string>)
    requires |a| == |b| && Fields(a) == Fields(b)
    ensures a == b
  {
    if a != [] {
      FieldsDiffer(a[0], b[0], Fields(a[1..]), Fields(b[1..]));
      PartsDiffer(a[1..], b[1..]);
      assert a == [a[0]] + a[1..] && b == [b[0]] + b[1..];
    }
  }

  function Parts(body: Unsigned, signature: string): (parts: seq<string>)
    ensures |parts| == 10
  {
    [body.federationId, KindText(body.kind), body.issuer, body.subject.nodeId, body.subject.publicKey, body.subject.profile,
     NumberText(body.subject.carried), NumberText(body.createdAt), body.nonce, signature]
  }

  lemma BodiesDiffer(b: Unsigned, x: string, d: Unsigned, y: string)
    requires Parts(b, x) == Parts(d, y)
    ensures b == d && x == y
  {
    var p, q := Parts(b, x), Parts(d, y);
    assert p[0] == q[0] && p[1] == q[1] && p[2] == q[2] && p[3] == q[3] && p[4] == q[4];
    assert p[5] == q[5] && p[6] == q[6] && p[7] == q[7] && p[8] == q[8] && p[9] == q[9];
    hide KindText, NumberText;
    KindsDiffer(b.kind, d.kind);
    NumbersDiffer(b.subject.carried, d.subject.carried);
    NumbersDiffer(b.createdAt, d.createdAt);
  }

  /******* The scheme and its events *******/

  function SampleScheme(): Scheme {
    Scheme((key: string, body: Unsigned, signature: string) => signature == key,
           (body: Unsigned, signature: string) => Fields(Parts(body, signature)))
  }

  lemma SampleSchemeIsCollisionFree()
    ensures CollisionFree(SampleScheme())
  {
    hide Fields, Parts;
    forall b, x, d, y | SampleScheme().digest(b, x) == SampleScheme().digest(d, y)
      ensures b == d && x == y
    {
      PartsDiffer(Parts(b, x), Parts(d, y));
      BodiesDiffer(b, x, d, y);
    }
  }

  function Sample(kind: Kind, issuer: string, node: string, profile: string, carried: int): Event {
    var body := Unsigned("f", kind, issuer, Subject(node, "key of " + node, profile, carried), 5, "");
    Event(body, "key of " + issuer, SampleScheme().digest(body, "key of " + issuer))
  }

  /** Two servers and what is said of the second one: enrolled, enrolled with a time, changed, revoked. */
  function Founder(): Event { Sample(Joined, "a", "a", "p", 0) }
  function Second(): Event { Sample(Joined, "a", "b", "p", 0) }
  function SecondCarrying(): Event { Sample(Joined, "a", "b", "p", 1000) }
  function SecondChanged(): Event { Sample(Updated, "b", "b", "new", 0) }
  function SecondRevoked(): Event { Sample(Revoked, "a", "b", "p", 0) }

  lemma SamplesFit()
    ensures var c := SampleScheme();
            && Founding(c, "f", Founder()) && Enrolment(c, Founder(), Second()) && Enrolment(c, Founder(), SecondCarrying())
            && OwnChange(c, Second(), SecondChanged()) && Revocation(c, Founder(), Second(), SecondRevoked())
  {
    hide Fields, Parts;
  }

  lemma SampleIdsDiffer(d: Event, e: Event)
    requires d.eventId == SampleScheme().digest(d.body, d.signature) && e.eventId == SampleScheme().digest(e.body, e.signature)
    requires d.body != e.body
    ensures d.eventId != e.eventId
  {
    hide SampleScheme;
    SampleSchemeIsCollisionFree();
  }

  lemma SampleIds()
    ensures Distinct([Founder().eventId, Second().eventId, SecondRevoked().eventId, SecondChanged().eventId])
    ensures Distinct([Founder().eventId, Second().eventId, SecondCarrying().eventId, SecondRevoked().eventId])
  {
    hide SampleScheme;
    var all := [Founder(), Second(), SecondCarrying(), SecondRevoked(), SecondChanged()];
    forall i, j | 0 <= i < j < 5 ensures all[i].eventId != all[j].eventId {
      SampleIdsDiffer(all[i], all[j]);
    }
    assert all[0].eventId != all[1].eventId && all[0].eventId != all[2].eventId && all[0].eventId != all[3].eventId;
    assert all[0].eventId != all[4].eventId && all[1].eventId != all[2].eventId && all[1].eventId != all[3].eventId;
    assert all[1].eventId != all[4].eventId && all[2].eventId != all[3].eventId && all[3].eventId != all[4].eventId;
  }

  /** Without any collision, two replicas at rest with each other hold different logs and records. */
  lemma DisagreementWithoutCollisions() returns (a: seq<Event>, b: seq<Event>)
    ensures var c := SampleScheme();
            var s, t := Run(c, "f", a), Run(c, "f", b);
            && CollisionFree(c) && NothingNewFor(c, s, t) && NothingNewFor(c, t, s) && s.events != t.events
            && "b" in s.nodes && "b" in t.nodes && s.nodes["b"].profile != t.nodes["b"].profile
  {
    SampleSchemeIsCollisionFree();
    SamplesFit();
    SampleIds();
    assert Second().body.subject.nodeId == "b" && Second().body.subject.profile == "p";
    assert SecondChanged().body.subject.profile == "new" && "new" != "p";
    hide *;
    RestWithoutAgreement(SampleScheme(), "f", Founder(), Second(), SecondRevoked(), SecondChanged());
    a := [Founder(), Second(), SecondRevoked(), SecondChanged()];
    b := [Founder(), Second(), SecondChanged(), SecondRevoked()];
  }

  /** Nor are different revocation times owed to collisions. */
  lemma DifferentTimesWithoutCollisions() returns (a: seq<Event>, b: seq<Event>)
    ensures var c := SampleScheme();
            var s, t := Run(c, "f", a), Run(c, "f", b);
            && CollisionFree(c) && s.events == t.events && "b" in s.nodes && "b" in t.nodes
            && s.nodes["b"].revoked && t.nodes["b"].revoked && s.nodes["b"].revokedAt != t.nodes["b"].revokedAt
  {
    SampleSchemeIsCollisionFree();
    SamplesFit();
    SampleIds();
    assert Second().body.subject.nodeId == SecondCarrying().body.subject.nodeId == "b";
    assert Second().body.subject.publicKey == SecondCarrying().body.subject.publicKey;
    assert Max(SecondRevoked().body.createdAt, Second().body.subject.carried) == 5;
    assert Max(SecondRevoked().body.createdAt, SecondCarrying().body.subject.carried) == 1000;
    hide *;
    CarriedTimesBreakAgreement(SampleScheme(), "f", Founder(), Second(), SecondCarrying(), SecondRevoked());
    a := [Founder(), Second(), SecondCarrying(), SecondRevoked()];
    b := [Founder(), SecondCarrying(), Second(), SecondRevoked()];
  }
}
