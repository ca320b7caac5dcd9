/**
 * String helpers with Python's semantics: str.isspace, str.strip, s[:n], str(n), and
 * str.lower restricted to ASCII letters and the basic Cyrillic block (U+0400..U+042F).
 */
module Text {

  /** The characters for which Python's str.isspace() is true. */
  predicate IsSpace(c: char) {
    || c == ' ' || c == '\t' || c == '\n' || c == '\r' || c == '\U{B}' || c == '\U{C}'
    || ('\U{1C}' <= c <= '\U{1F}') || c == '\U{85}' || c == '\U{A0}' || c == '\U{1680}'
    || ('\U{2000}' <= c <= '\U{200A}') || c == '\U{2028}' || c == '\U{2029}'
    || c == '\U{202F}' || c == '\U{205F}' || c == '\U{3000}'
  }

  /** s.lstrip(): drops the leading whitespace and keeps the rest. */
  function StripLeft(s: string): (r: string)
    ensures |r| <= |s| && r == s[|s| - |r|..]
    ensures forall i :: 0 <= i < |s| - |r| ==> IsSpace(s[i])
    ensures r == [] || !IsSpace(r[0])
  {
    if s != [] && IsSpace(s[0]) then StripLeft(s[1..]) else s
  }

  /** s.rstrip(): drops the trailing whitespace and keeps the rest. */
  function StripRight(s: string): (r: string)
    ensures |r| <= |s| && r == s[..|r|]
    ensures forall i :: |r| <= i < |s| ==> IsSpace(s[i])
    ensures r == [] || !IsSpace(r[|r| - 1])
  {
    if s != [] && IsSpace(s[|s| - 1]) then StripRight(s[..|s| - 1]) else s
  }

  /** r occurs in s starting at position k. */
  predicate OccursAt(r: string, s: string, k: int) {
    0 <= k <= |s| - |r| && s[k..k + |r|] == r
  }

  /** r is s[k..k + |r|], and everything of s before and after it is whitespace. */
  predicate TrimmedAt(r: string, s: string, k: int) {
    && OccursAt(r, s, k)
    && (forall i :: 0 <= i < k ==> IsSpace(s[i]))
    && (forall i :: k + |r| <= i < |s| ==> IsSpace(s[i]))
  }

  /** Stripping the right end after the left leaves the middle of s, with whitespace on both sides. */
  lemma StripBothEnds(s: string)
    ensures TrimmedAt(StripRight(StripLeft(s)), s, |s| - |StripLeft(s)|)
  {
    var l := StripLeft(s);
    var r := StripRight(l);
    var k := |s| - |l|;
    StripMiddle(s, l, r, k);
    assert forall i :: 0 <= i < k ==> IsSpace(s[i]);
    assert forall i :: k + |r| <= i < |s| ==> IsSpace(s[i]);
  }

  /** The pieces of StripBothEnds: r sits at k in s, and s after it is the whitespace l loses. */
  lemma StripMiddle(s: string, l: string, r: string, k: int)
    requires 0 <= k <= |s| && l == s[k..]
    requires |r| <= |l| && r == l[..|r|]
    requires forall i :: |r| <= i < |l| ==> IsSpace(l[i])
    ensures OccursAt(r, s, k)
    ensures forall i :: k + |r| <= i < |s| ==> IsSpace(s[i])
  {
    assert r == s[k..k + |r|];
    forall i | k + |r| <= i < |s| ensures IsSpace(s[i]) {
      assert s[i] == l[i - k];
    }
  }

  /** s.strip(): s with its leading and trailing whitespace removed, and nothing else. */
  function Strip(s: string): (r: string)
    ensures |r| <= |s|
    ensures r == [] || (!IsSpace(r[0]) && !IsSpace(r[|r| - 1]))
    ensures exists k :: TrimmedAt(r, s, k)
    ensures r == [] ==> forall i :: 0 <= i < |s| ==> IsSpace(s[i])
  {
    StripBothEnds(s);
    StripRight(StripLeft(s))
  }

  lemma {:induction false} StripKeepsNonSpace(s: string, i: nat)
    requires i < |s| && !IsSpace(s[i])
    ensures Strip(s) != []
  {
    var l := StripLeft(s);
    assert |s| - |l| <= i;
    assert l[i - (|s| - |l|)] == s[i];
    var r := StripRight(l);
    assert i - (|s| - |l|) < |r|;
  }

  /**
   * str.lower() on one character, for ASCII letters and the basic Cyrillic block
   * (U+0400..U+042F), the only characters whose lower case is a letter of the
   * confirmation tokens; every other character is kept.
   */
  function LowerChar(c: char): (d: char)
  {
    if 'A' <= c <= 'Z' then (c as int + 32) as char
    else if '\U{410}' <= c <= '\U{42F}' then (c as int + 32) as char
    else if '\U{400}' <= c <= '\U{40F}' then (c as int + 80) as char
    else c
  }

  function Lower(s: string): (r: string)
    ensures |r| == |s|
  {
    seq(|s|, i requires 0 <= i < |s| => LowerChar(s[i]))
  }

  /** Lower(s) equals t exactly when s has t's length and each character lowers to t's. */
  lemma LowerIs(s: string, t: string)
    ensures Lower(s) == t <==> |s| == |t| && forall i :: 0 <= i < |s| ==> LowerChar(s[i]) == t[i]
  {
    if |s| == |t| && forall i :: 0 <= i < |s| ==> LowerChar(s[i]) == t[i] {
      assert forall i :: 0 <= i < |s| ==> Lower(s)[i] == t[i];
    }
  }

  /** Python's s[:n] for n >= 0: the first n characters, or all of s when it is shorter. */
  function Take<T>(s: seq<T>, n: nat): (r: seq<T>)
    ensures |r| <= n && |r| <= |s| && r == s[..|r|]
    ensures |r| == n || r == s
  {
    if n <= |s| then s[..n] else s
  }

  function Digit(d: nat): (c: char)
    requires d < 10
    ensures '0' <= c <= '9'
  {
    ('0' as int + d) as char
  }

  /** str(n) for a natural number: its decimal digits, most significant first. */
  function NatToString(n: nat): (s: string)
    ensures |s| >= 1
    ensures forall i :: 0 <= i < |s| ==> '0' <= s[i] <= '9'
  {
    if n < 10 then [Digit(n)] else NatToString(n / 10) + [Digit(n % 10)]
  }

  /** The number a string of decimal digits denotes. */
  function DigitsValue(s: string): nat
    requires forall i :: 0 <= i < |s| ==> '0' <= s[i] <= '9'
  {
    if s == [] then 0 else 10 * DigitsValue(s[..|s| - 1]) + (s[|s| - 1] as int - '0' as int)
  }

  /** str(n) reads back as n. */
  lemma {:induction false} NatToStringRoundTrip(n: nat)
    ensures DigitsValue(NatToString(n)) == n
  {
    if n >= 10 {
      var s := NatToString(n);
      assert s[..|s| - 1] == NatToString(n / 10);
      NatToStringRoundTrip(n / 10);
    }
  }
}
