/**
 Compose port specs, `address:host:container/protocol` and shorter forms: reading the published
 port and replacing it. How text is read as an integer is a parameter.
 */
module PortSpecs {
  import opened Common
  import opened Stripping

  /******* Text *******/

  predicate Quote(c: char)
    ensures Quote(c) <==> c in "'\""
  {
    c == '"' || c == '\''
  }

  predicate Strippable(c: char) { Space(c) || Quote(c) }

  /** What is left of a spec without blanks, then without quotes, at its ends. */
  function Clean(s: string): string { Strip(Strip(s, Space), Quote) }

  function CleanLeft(s: string): (r: string)
    ensures forall c :: c in r ==> c in s
    ensures |r| < |s| || r == s
  {
    StripLeft(StripLeft(s, Space), Quote)
  }

  function CleanRight(s: string): (r: string)
    ensures r <= s && forall k :: |r| <= k < |s| ==> Strippable(s[k])
  {
    StripRight(StripRight(s, Space), Quote)
  }

  /** Cleaning works at the two ends only. */
  lemma CleanAround(x: string, m: string, y: string)
    requires m != "" && !Strippable(m[0]) && !Strippable(m[|m| - 1])
    ensures Clean(x + m + y) == CleanLeft(x) + m + CleanRight(y)
  {
    StripAround(x, m, y, Space);
    StripAround(StripLeft(x, Space), m, StripRight(y, Space), Quote);
  }

  function IndexOf(s: string, c: char): (k: nat)
    ensures k <= |s| && (k < |s| ==> s[k] == c)
    ensures forall i :: 0 <= i < k ==> s[i] != c
  {
    if s == "" || s[0] == c then 0 else 1 + IndexOf(s[1..], c)
  }

  function LastIndexOf(s: string, c: char): (k: int)
    ensures -1 <= k < |s| && (k >= 0 ==> s[k] == c)
    ensures forall i :: k < i < |s| ==> s[i] != c
  {
    if s == "" then -1 else if s[|s| - 1] == c then |s| - 1 else LastIndexOf(s[..|s| - 1], c)
  }

  /******* Numbers *******/

  function Digit(d: nat): char
    requires d < 10
  {
    ['0', '1', '2', '3', '4', '5', '6', '7', '8', '9'][d]
  }

  predicate IsDigit(c: char) { '0' <= c <= '9' }

  function Digits(n: nat): (s: string)
    ensures s != "" && forall i :: 0 <= i < |s| ==> IsDigit(s[i])
    ensures s[0] == '0' <==> n == 0
  {
    if n < 10 then [Digit(n)] else Digits(n / 10) + [Digit(n % 10)]
  }

  function Decimal(n: int): (s: string)
    ensures s != "" && forall i :: 0 <= i < |s| ==> IsDigit(s[i]) || s[i] == '-'
    ensures (s[0] == '-' <==> n < 0) && (s[0] == '0' ==> s == "0")
  {
    if n < 0 then "-" + Digits(-n) else Digits(n)
  }

  ghost predicate ReadsDecimals(toInt: string -> Option<int>) {
    forall n :: toInt(Decimal(n)) == Some(n)
  }

  function Value(s: string): Option<nat> {
    if s == "" then None
    else if !IsDigit(s[|s| - 1]) then None
    else
      var d := (s[|s| - 1] as int - '0' as int) as nat;
      if |s| == 1 then Some(d) else match Value(s[..|s| - 1]) case Some(v) => Some(10 * v + d) case None => None
  }

  /** Reading a sign and digits, the least an integer reader does. */
  function ReadSigned(s: string): Option<int> {
    if s != "" && s[0] == '-' then
      var v := Value(s[1..]);
      if v.Some? then Some(-(v.value as int)) else None
    else
      var v := Value(s);
      if v.Some? then Some(v.value as int) else None
  }

  lemma {:induction false} DigitsReadBack(n: nat)
    ensures Value(Digits(n)) == Some(n)
  {
    if n >= 10 {
      DigitsReadBack(n / 10);
      assert Digits(n)[..|Digits(n)| - 1] == Digits(n / 10);
    }
  }

  lemma ReadSignedReadsDecimals()
    ensures ReadsDecimals(ReadSigned)
  {
    forall n ensures ReadSigned(Decimal(n)) == Some(n) {
      DigitsReadBack(if n < 0 then -n else n);
      hide Digits, Value;
      if n < 0 {
        assert Decimal(n)[1..] == Digits(-n);
      } else {
        assert IsDigit(Digits(n)[0]);
      }
    }
  }

  /******* Specs *******/

  /** A spec cut at its first slash and at the last two colons before it. `rest` is the slash and
      the protocol, if any. */
  datatype Spec =
    | Bare(container: string, rest: string)
    | Published(host: string, container: string, rest: string)
    | Bound(address: string, host: string, container: string, rest: string)

  function Cut(text: string): Spec {
    var slash := IndexOf(text, '/');
    var base, rest := text[..slash], text[slash..];
    var k := LastIndexOf(base, ':');
    if k < 0 then Bare(base, rest)
    else
      var j := LastIndexOf(base[..k], ':');
      if j < 0 then Published(base[..k], base[k + 1..], rest)
      else Bound(base[..j], base[j + 1..k], base[k + 1..], rest)
  }

  function Text(spec: Spec): string {
    match spec
    case Bare(c, r) => c + r
    case Published(h, c, r) => h + ":" + (c + r)
    case Bound(a, h, c, r) => a + (":" + h + ":") + (c + r)
  }

  /** A Compose entry is written short, as text, or long, with a field for the published port. */
  datatype Mapping = Short(text: string) | Long(published: string, others: string)

  function PublishedPort(toInt: string -> Option<int>, m: Mapping): Option<int> {
    match m
    case Long(published, _) => toInt(published)
    case Short(text) =>
      var spec := Cut(Clean(text));
      if spec.Bare? then None else toInt(spec.host)
  }

  function ReplacePublishedPort(m: Mapping, port: int): Mapping {
    match m
    case Long(_, others) => Long(Decimal(port), others)
    case Short(text) =>
      var spec := Cut(Clean(text));
      if spec.Bare? then Short(Clean(text)) else Short(Text(spec.(host := Decimal(port))))
  }

  predicate Free(s: string, c: char) { forall i :: 0 <= i < |s| ==> s[i] != c }

  /** The pieces a cut can produce. */
  predicate WellCut(spec: Spec) {
    && Free(spec.container, ':') && Free(spec.container, '/') && (spec.rest == "" || spec.rest[0] == '/')
    && (!spec.Bare? ==> Free(spec.host, ':') && Free(spec.host, '/'))
    && (spec.Bound? ==> Free(spec.address, '/'))
  }

  lemma TextOfThree(a: string, h: string, c: string, r: string)
    ensures ((a + ":" + h) + ":" + c) + r == a + (":" + h + ":") + (c + r)
    ensures (h + ":" + c) + r == h + ":" + (c + r)
  {
  }

  lemma FreeWhole(a: string, b: string, d: char, c: char)
    requires Free(a, c) && Free(b, c) && d != c
    ensures Free(a + [d] + b, c)
  {
  }

  /** What a cut at the last colon yields. */
  lemma ColonCut(base: string)
    requires Free(base, '/')
    ensures var k := LastIndexOf(base, ':');
            k >= 0 ==>
              && base == base[..k] + ":" + base[k + 1..]
              && Free(base[..k], '/') && Free(base[k + 1..], '/') && Free(base[k + 1..], ':')
  {
    hide LastIndexOf;
    var k := LastIndexOf(base, ':');
    if k >= 0 {
      assert base[k] == ':';
      var tail := base[k + 1..];
      assert forall i :: 0 <= i < |tail| ==> tail[i] == base[k + 1 + i];
    }
  }

  /** Cutting loses nothing. */
  lemma CutIsExact(text: string)
    ensures Text(Cut(text)) == text && WellCut(Cut(text))
  {
    hide IndexOf, LastIndexOf;
    var slash := IndexOf(text, '/');
    var base, rest := text[..slash], text[slash..];
    assert text == base + rest && Free(base, '/') && (rest == "" || rest[0] == '/');
    ColonCut(base);
    var k := LastIndexOf(base, ':');
    assert k < 0 ==> Free(base, ':');
    hide Free;
    if k >= 0 {
      var host, container := base[..k], base[k + 1..];
      ColonCut(host);
      var j := LastIndexOf(host, ':');
      if j >= 0 {
        TextOfThree(host[..j], host[j + 1..], container, rest);
        assert base[..j] == host[..j] && base[j + 1..k] == host[j + 1..];
      } else {
        TextOfThree("", host, container, rest);
        NoColonIsFree(host);
      }
    }
  }

  lemma NoColonIsFree(s: string)
    ensures Free(s, ':') <==> LastIndexOf(s, ':') == -1
  {
  }

  lemma SlashFound(base: string, rest: string)
    requires Free(base, '/') && (rest == "" || rest[0] == '/')
    ensures IndexOf(base + rest, '/') == |base|
    ensures (base + rest)[..|base|] == base && (base + rest)[|base|..] == rest
  {
  }

  lemma LastIndexIs(s: string, c: char, k: nat)
    requires k < |s| && s[k] == c && forall i :: k < i < |s| ==> s[i] != c
    ensures LastIndexOf(s, c) == k
  {
  }

  lemma Around(head: string, c: char, tail: string)
    ensures var s := head + [c] + tail;
            && |s| == |head| + 1 + |tail| && s[|head|] == c && s[..|head|] == head && s[|head| + 1..] == tail
            && forall i :: |head| < i < |s| ==> s[i] == tail[i - |head| - 1]
  {
  }

  lemma ColonFound(head: string, tail: string)
    requires Free(tail, ':')
    ensures LastIndexOf(head + ":" + tail, ':') == |head|
    ensures (head + ":" + tail)[..|head|] == head && (head + ":" + tail)[|head| + 1..] == tail
  {
    hide LastIndexOf;
    var text := head + [':'] + tail;
    Around(head, ':', tail);
    LastIndexIs(text, ':', |head|);
  }

  /** Writing well-cut pieces and cutting them gives them back. */
  lemma CutOfText(spec: Spec)
    requires WellCut(spec) && !spec.Bare?
    ensures Cut(Text(spec)) == spec
  {
    hide IndexOf, LastIndexOf, Free;
    var h, c, r := spec.host, spec.container, spec.rest;
    var head := if spec.Published? then h else spec.address + ":" + h;
    var base := head + ":" + c;
    if spec.Published? {
      TextOfThree("", h, c, r);
      NoColonIsFree(h);
    } else {
      TextOfThree(spec.address, h, c, r);
      FreeWhole(spec.address, h, ':', '/');
      ColonFound(spec.address, h);
    }
    FreeWhole(head, c, ':', '/');
    SlashFound(base, r);
    ColonFound(head, c);
    assert Text(spec) == base + r;
    assert base[..|head|] == head && base[|head| + 1..] == c;
    assert spec.Bound? ==> base[..|spec.address|] == spec.address && base[|spec.address| + 1..|head|] == h;
  }

  lemma DecimalsAreFree(n: int)
    ensures Free(Decimal(n), ':') && Free(Decimal(n), '/')
    ensures !Strippable(Decimal(n)[0])
  {
  }

  /** The container side and protocol once the blanks and quotes after them are gone. */
  function CleanTail(container: string, rest: string): (string, string) {
    var kept := CleanRight(container + rest);
    if |kept| <= |container| then (kept, "") else (container, kept[|container|..])
  }

  lemma CleanTailIsWellCut(container: string, rest: string)
    requires Free(container, ':') && Free(container, '/') && (rest == "" || rest[0] == '/')
    ensures var (c, r) := CleanTail(container, rest);
            && c + r == CleanRight(container + rest)
            && Free(c, ':') && Free(c, '/') && (r == "" || r[0] == '/')
    ensures CleanRight(container + rest) == container + rest ==> CleanTail(container, rest) == (container, rest)
  {
    var kept := CleanRight(container + rest);
    hide CleanRight;
    assert kept == (container + rest)[..|kept|];
    assert forall i :: 0 <= i < |kept| && i < |container| ==> kept[i] == container[i];
    if |kept| > |container| {
      assert kept[..|container|] == container;
      assert kept[|container|] == rest[0];
    }
  }

  /** What a replaced spec looks like when it is read again. */
  function Reread(spec: Spec, port: int): Spec
    requires !spec.Bare?
  {
    var (c, r) := CleanTail(spec.container, spec.rest);
    if spec.Published? then Published(Decimal(port), c, r) else Bound(CleanLeft(spec.address), Decimal(port), c, r)
  }

  lemma CleanLeftKeepsFree(s: string, c: char)
    requires Free(s, c)
    ensures Free(CleanLeft(s), c)
  {
    forall i | 0 <= i < |CleanLeft(s)| ensures CleanLeft(s)[i] != c {
      assert CleanLeft(s)[i] in CleanLeft(s);
    }
  }

  /** A spec that has had its port replaced is cleaned at its outer ends only. */
  lemma CleanedAfterReplacing(spec: Spec, port: int)
    requires WellCut(spec) && !spec.Bare?
    ensures WellCut(Reread(spec, port))
    ensures Clean(Text(spec.(host := Decimal(port)))) == Text(Reread(spec, port))
    ensures (CleanRight(spec.container + spec.rest) == spec.container + spec.rest
             && (spec.Bound? ==> CleanLeft(spec.address) == spec.address))
            ==> Reread(spec, port) == spec.(host := Decimal(port))
  {
    hide Free, CleanRight, CleanLeft, Clean, Decimal, CleanTail, Strippable;
    DecimalsAreFree(port);
    CleanTailIsWellCut(spec.container, spec.rest);
    if spec.Published? {
      PublishedCleaned(port, spec.container + spec.rest);
    } else {
      BoundCleaned(spec.address, port, spec.container + spec.rest);
      CleanLeftKeepsFree(spec.address, '/');
    }
  }

  lemma PublishedCleaned(port: int, tail: string)
    ensures Clean(Decimal(port) + ":" + tail) == Decimal(port) + ":" + CleanRight(tail)
  {
    DecimalsAreFree(port);
    var m := Decimal(port) + ":";
    assert !Strippable(':');
    CleanAround("", m, tail);
    assert CleanLeft("") == "";
    hide *;
    assert "" + m + tail == m + tail && "" + m + CleanRight(tail) == m + CleanRight(tail);
  }

  lemma BoundCleaned(address: string, port: int, tail: string)
    ensures Clean(address + (":" + Decimal(port) + ":") + tail) == CleanLeft(address) + (":" + Decimal(port) + ":") + CleanRight(tail)
  {
    assert !Strippable(':');
    CleanAround(address, ":" + Decimal(port) + ":", tail);
  }

  /** Reading back a replaced spec gives the new port. */
  lemma ReplacedPortReadsBack(toInt: string -> Option<int>, m: Mapping, port: int)
    requires ReadsDecimals(toInt)
    requires m.Short? ==> !Cut(Clean(m.text)).Bare?
    ensures PublishedPort(toInt, ReplacePublishedPort(m, port)) == Some(port)
    ensures m.Long? ==> ReplacePublishedPort(m, port).Long? && ReplacePublishedPort(m, port).others == m.others
  {
    if m.Short? {
      var spec := Cut(Clean(m.text));
      CutIsExact(Clean(m.text));
      CleanedAfterReplacing(spec, port);
      CutOfText(Reread(spec, port));
      hide Clean, Cut, Text, CleanTail, CleanLeft, Decimal, WellCut;
    }
  }

  /** Cleaning takes off blanks, and then quotes, as many as there are. */
  lemma CleanExactly(s: string, r: string)
    ensures Clean(s) == r <==> exists m :: StripsTo(s, Space, m) && StripsTo(m, Quote, r)
  {
    hide Strip, StripsTo;
    StripExactly(s, Space, Strip(s, Space));
    forall m | StripsTo(s, Space, m)
      ensures m == Strip(s, Space)
    {
      StripExactly(s, Space, m);
    }
    StripExactly(Strip(s, Space), Quote, r);
  }

  /** In a spec written `head` `host` `:` `container` `rest`, the number read is the host's, and the one
      written stands in its place. `head` is an address and its colon, if there is one. */
  lemma PublishedInPlace(toInt: string -> Option<int>, text: string, head: string, host: string, container: string, rest: string, port: int)
    requires Clean(text) == head + host + ":" + container + rest
    requires head == "" || (head[|head| - 1] == ':' && Free(head, '/'))
    requires Free(host, ':') && Free(host, '/') && Free(container, ':') && Free(container, '/')
    requires rest == "" || rest[0] == '/'
    ensures PublishedPort(toInt, Short(text)) == toInt(host)
    ensures ReplacePublishedPort(Short(text), port) == Short(head + Decimal(port) + ":" + container + rest)
  {
    var spec := if head == "" then Published(host, container, rest) else Bound(head[..|head| - 1], host, container, rest);
    assert WellCut(spec);
    CutOfText(spec);
    hide Clean, Cut, Decimal, Free, WellCut;
    assert Text(spec) == head + host + ":" + container + rest by { WrittenOut(head, host, container, rest); }
    WrittenOut(head, Decimal(port), container, rest);
  }

  lemma WrittenOut(head: string, host: string, container: string, rest: string)
    requires head == "" || head[|head| - 1] == ':'
    ensures head == "" ==> Text(Published(host, container, rest)) == head + host + ":" + container + rest
    ensures head != "" ==> Text(Bound(head[..|head| - 1], host, container, rest)) == head + host + ":" + container + rest
  {
    if head != "" { assert head == head[..|head| - 1] + ":"; }
  }

  /** A spec without a colon before its protocol publishes nothing, and is only cleaned. */
  lemma NothingPublished(toInt: string -> Option<int>, text: string, base: string, rest: string, port: int)
    requires Clean(text) == base + rest && Free(base, ':') && Free(base, '/') && (rest == "" || rest[0] == '/')
    ensures PublishedPort(toInt, Short(text)) == None && ReplacePublishedPort(Short(text), port) == Short(base + rest)
  {
    SlashFound(base, rest);
    NoColonIsFree(base);
    hide Clean, IndexOf, LastIndexOf, Free;
  }

  /** Replacing changes the host port and nothing else: not the address, not the container side,
      not the protocol. */
  lemma ReplacingChangesTheHostOnly(m: Mapping, port: int)
    requires m.Short? && !Cut(Clean(m.text)).Bare?
    ensures var spec, after := Cut(Clean(m.text)), Cut(ReplacePublishedPort(m, port).text);
            && Text(spec) == Clean(m.text) && after == spec.(host := Decimal(port))
            && Text(after) == ReplacePublishedPort(m, port).text
  {
    var spec := Cut(Clean(m.text));
    CutIsExact(Clean(m.text));
    DecimalsAreFree(port);
    CutOfText(spec.(host := Decimal(port)));
    hide Clean, Cut, Text, Decimal;
  }

  lemma RereadWhenClean(spec: Spec, port: int)
    requires WellCut(spec) && !spec.Bare? && Clean(Text(spec)) == Text(spec)
    ensures Cut(Clean(Text(spec.(host := Decimal(port))))) == spec.(host := Decimal(port))
  {
    CleanedAfterReplacing(spec, port);
    WholeEnds(spec);
    DecimalsAreFree(port);
    CutOfText(spec.(host := Decimal(port)));
    hide Cut, Clean, CleanLeft, CleanRight, Free, Decimal, Text, Reread;
  }

  lemma WholeEnds(spec: Spec)
    requires WellCut(spec) && !spec.Bare? && Clean(Text(spec)) == Text(spec)
    ensures CleanRight(spec.container + spec.rest) == spec.container + spec.rest
    ensures spec.Bound? ==> CleanLeft(spec.address) == spec.address
  {
  }

  /** Replacing again forgets the first replacement, when the spec had been wholly cleaned. */
  lemma LastReplacementWins(m: Mapping, first: int, second: int)
    requires m.Short? && Clean(Clean(m.text)) == Clean(m.text)
    ensures ReplacePublishedPort(ReplacePublishedPort(m, first), second) == ReplacePublishedPort(m, second)
  {
    var spec := Cut(Clean(m.text));
    CutIsExact(Clean(m.text));
    if !spec.Bare? {
      RereadWhenClean(spec, first);
    }
    hide Clean, Cut, Text, Decimal, WellCut;
  }
}
