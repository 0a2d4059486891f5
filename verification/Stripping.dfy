/** Stripping characters off the ends of a text. */
module Stripping {

  predicate Space(c: char)
    ensures Space(c) <==> c == ' ' || 9 <= c as int <= 13
  {
    c in {' ', '\t', '\n', '\r', '\U{B}', '\U{C}'}
  }

  function StripLeft(s: string, p: char -> bool): (r: string)
    ensures forall c :: c in r ==> c in s
    ensures |r| < |s| || r == s
  {
    if s != "" && p(s[0]) then StripLeft(s[1..], p) else s
  }

  function StripRight(s: string, p: char -> bool): (r: string)
    ensures forall c :: c in r ==> c in s
    ensures r <= s && forall k :: |r| <= k < |s| ==> p(s[k])
  {
    if s != "" && p(s[|s| - 1]) then StripRight(s[..|s| - 1], p) else s
  }

  function Strip(s: string, p: char -> bool): string { StripRight(StripLeft(s, p), p) }

  lemma {:induction false} StripLeftStops(x: string, m: string, p: char -> bool)
    requires m != "" && !p(m[0])
    ensures StripLeft(x + m, p) == StripLeft(x, p) + m
  {
    if x == "" {
      assert x + m == m;
    } else {
      assert (x + m)[1..] == x[1..] + m;
      StripLeftStops(x[1..], m, p);
    }
  }

  lemma {:induction false} StripRightStops(m: string, y: string, p: char -> bool)
    requires m != "" && !p(m[|m| - 1])
    ensures StripRight(m + y, p) == m + StripRight(y, p)
  {
    if y == "" {
      assert m + y == m;
    } else {
      assert (m + y)[..|m + y| - 1] == m + y[..|y| - 1];
      StripRightStops(m, y[..|y| - 1], p);
    }
  }

  lemma StripAround(x: string, m: string, y: string, p: char -> bool)
    requires m != "" && !p(m[0]) && !p(m[|m| - 1])
    ensures Strip(x + m + y, p) == StripLeft(x, p) + m + StripRight(y, p)
  {
    assert x + m + y == x + (m + y);
    StripLeftStops(x, m + y, p);
    assert StripLeft(x, p) + (m + y) == (StripLeft(x, p) + m) + y;
    StripRightStops(StripLeft(x, p) + m, y, p);
  }

  lemma {:induction false} LeftIsCut(s: string, p: char -> bool) returns (i: nat)
    ensures i <= |s| && StripLeft(s, p) == s[i..]
    ensures (forall k :: 0 <= k < i ==> p(s[k])) && (i < |s| ==> !p(s[i]))
  {
    if s != "" && p(s[0]) {
      var k := LeftIsCut(s[1..], p);
      i := k + 1;
    } else {
      i := 0;
    }
  }

  lemma {:induction false} RightIsCut(s: string, p: char -> bool) returns (j: nat)
    ensures j <= |s| && StripRight(s, p) == s[..j]
    ensures (forall k :: j <= k < |s| ==> p(s[k])) && (j > 0 ==> !p(s[j - 1]))
  {
    if s != "" && p(s[|s| - 1]) {
      j := RightIsCut(s[..|s| - 1], p);
    } else {
      j := |s|;
    }
  }

  /** `r` is the middle of `s` between characters of a kind, and neither begins nor ends with one. */
  ghost predicate StripsTo(s: string, p: char -> bool, r: string) {
    && (exists i, j :: 0 <= i <= j <= |s| && s[i..j] == r && Outside(s, p, i, j))
    && (r != "" ==> !p(r[0]) && !p(r[|r| - 1]))
  }

  ghost predicate Outside(s: string, p: char -> bool, i: int, j: int) {
    forall k :: 0 <= k < |s| && (k < i || j <= k) ==> p(s[k])
  }

  lemma StripStrips(s: string, p: char -> bool)
    ensures StripsTo(s, p, Strip(s, p))
  {
    var i := LeftIsCut(s, p);
    var n := RightIsCut(s[i..], p);
    hide StripLeft, StripRight;
    assert s[i..i + n] == s[i..][..n] && Outside(s, p, i, i + n);
  }

  lemma StripsToOne(s: string, p: char -> bool, q: string, r: string)
    requires StripsTo(s, p, q) && StripsTo(s, p, r)
    ensures q == r
  {
    var i, j :| 0 <= i <= j <= |s| && s[i..j] == q && Outside(s, p, i, j);
    var a, b :| 0 <= a <= b <= |s| && s[a..b] == r && Outside(s, p, a, b);
    assert i < j ==> s[i] == q[0] && s[j - 1] == q[j - 1 - i];
    assert a < b ==> s[a] == r[0] && s[b - 1] == r[b - 1 - a];
    assert i < j ==> a <= i && j <= b;
    assert a < b ==> i <= a && b <= j;
  }

  /** Stripping gives exactly what is left between the characters stripped, and nothing else does. */
  lemma StripExactly(s: string, p: char -> bool, r: string)
    ensures Strip(s, p) == r <==> StripsTo(s, p, r)
  {
    hide *;
    StripStrips(s, p);
    if StripsTo(s, p, r) { StripsToOne(s, p, Strip(s, p), r); }
  }
}
