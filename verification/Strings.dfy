/** The few string operations of the source, over ASCII digits and whitespace. */
module Strings {

  /** The ASCII characters that `str.strip` removes. */
  predicate IsSpace(c: char) {
    c == ' ' || '\t' <= c <= '\r' || '\U{1c}' <= c <= '\U{1f}'
  }

  predicate IsDigit(c: char) { '0' <= c <= '9' }

  predicate AllDigits(s: string) { forall i :: 0 <= i < |s| ==> IsDigit(s[i]) }

  predicate Blank(s: string) { forall i :: 0 <= i < |s| ==> IsSpace(s[i]) }

  /** No surrounding whitespace. */
  predicate Trim(s: string) { s == "" || (!IsSpace(s[0]) && !IsSpace(s[|s| - 1])) }

  /** s starts with exactly n whitespace characters. */
  predicate Leads(s: string, n: nat) {
    n <= |s| && (forall i :: 0 <= i < n ==> IsSpace(s[i])) && (n < |s| ==> !IsSpace(s[n]))
  }

  /** s ends at n, but for whitespace. */
  predicate Ends(s: string, n: nat) {
    n <= |s| && (forall i :: n <= i < |s| ==> IsSpace(s[i])) && (n > 0 ==> !IsSpace(s[n - 1]))
  }

  lemma {:induction false} SomeLead(s: string) returns (n: nat)
    ensures Leads(s, n)
  {
    n := 0;
    if s != "" && IsSpace(s[0]) {
      n := SomeLead(s[1..]);
      n := n + 1;
    }
  }

  lemma {:induction false} SomeEnd(s: string) returns (n: nat)
    ensures Ends(s, n)
  {
    n := |s|;
    if s != "" && IsSpace(s[|s| - 1]) {
      n := SomeEnd(s[..|s| - 1]);
    }
  }

  function StripLeft(s: string): (r: string)
    ensures r == "" || !IsSpace(r[0])
  {
    assert exists n: nat :: Leads(s, n) by { var n := SomeLead(s); }
    var n: nat :| n <= |s| && Leads(s, n);
    s[n..]
  }

  function StripRight(s: string): (r: string)
    ensures r == "" || !IsSpace(r[|r| - 1])
    ensures r <= s && Blank(s[|r|..])
  {
    assert exists n: nat :: Ends(s, n) by { var n := SomeEnd(s); }
    var n: nat :| n <= |s| && Ends(s, n);
    s[..n]
  }

  /** `str.strip`. */
  function Strip(s: string): string { StripRight(StripLeft(s)) }

  lemma StripLeftDecomposes(s: string) returns (pad: string)
    ensures Blank(pad) && s == pad + StripLeft(s)
  {
    var n := SomeLead(s);
    pad := s[..n];
  }

  lemma StripDecomposes(s: string) returns (before: string, after: string)
    ensures Blank(before) && Blank(after) && s == before + Strip(s) + after
    ensures Trim(Strip(s))
  {
    before := StripLeftDecomposes(s);
    var left := StripLeft(s);
    after := left[|Strip(s)|..];
    assert left == Strip(s) + after;
    if Strip(s) != "" { assert Strip(s)[0] == left[0]; }
  }

  lemma StripOfTrim(s: string)
    requires Trim(s)
    ensures Strip(s) == s
  {
    assert Leads(s, 0) && Ends(s, |s|);
  }

  lemma StripOfPadded(before: string, s: string, after: string)
    requires Blank(before) && Blank(after) && s != "" && Trim(s)
    ensures Strip(before + s + after) == s
  {
    var padded := before + s + after;
    assert Leads(padded, |before|);
    assert StripLeft(padded) == s + after;
    assert Ends(s + after, |s|);
  }

  lemma StripOfTail(s: string, after: string)
    requires Blank(after) && s != "" && Trim(s)
    ensures Strip(s + after) == s
  {
    StripOfPadded("", s, after);
    assert "" + s + after == s + after;
  }

  /** `s[-3:]` and `s[:-3]`. */
  function LastThree(s: string): string { if |s| < 3 then s else s[|s| - 3..] }

  function ButLastThree(s: string): string { if |s| < 3 then "" else s[..|s| - 3] }
}
